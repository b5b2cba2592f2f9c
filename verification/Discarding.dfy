// What discarding takes away and what it must leave alone: a memo loses what it holds exactly if it is not pinned and
// no chain of live listeners connects it to a root.
module Discarding {
  import opened DirtyLattice
  import opened Options
  import opened Computation
  import opened GraphState
  import opened BindingSteps
  import opened EvaluationSteps
  import opened Evolution
  import opened Runs
  import opened LifetimeSteps
  import opened AtRest

  // ----- bindings -----

  /** Bindings were removed, all of them of node `n`; the others are as they were. */
  predicate OnlyUnbound(g0: G, g: G, n: nat) {
    && Lengths(g0) && Lengths(g) && Size(g) == Size(g0)
    && (forall s, k :: 0 <= s < Size(g0) && k in g0.sinks[s] && g0.sinks[s][k].sink != n ==> k in g.sinks[s])
    && (forall s, k :: 0 <= s < Size(g0) && k in g.sinks[s] ==> k in g0.sinks[s] && g.sinks[s][k] == g0.sinks[s][k])
  }

  lemma OnlyUnboundRefl(g: G, n: nat)
    requires Lengths(g)
    ensures OnlyUnbound(g, g, n)
  {
  }

  lemma OnlyUnboundNext(g0: G, g: G, n: nat, len: nat)
    requires OnlyUnbound(g0, g, n) && n < Size(g) && len < |g.sources[n]| && Linked(g, g.sources[n][len], n)
    ensures OnlyUnbound(g0, DrainAt(g, n, len), n)
  {
    var g' := DrainAt(g, n, len);
    var src := g.sources[n][len];
    assert Lengths(g');
    assert g'.sinks == g.sinks[src.node := g.sinks[src.node] - {src.key}];
  }

  // ----- one discard -----

  /** Memo `m` holds nothing and has to be computed again. */
  predicate Empty(g: G, m: nat)
    requires Lengths(g) && m < Size(g)
  {
    g.cache[m] == None && g.sources[m] == [] && g.dirty[m] == Dirty
  }

  /** A scheduled discard: memo `m`, which is not pinned, is emptied if nobody listens; nothing else changes. */
  ghost predicate Discarded(g0: G, g: G, m: nat) {
    && Lengths(g0) && Lengths(g) && OnlyUnbound(g0, g, m)
    && g.kinds == g0.kinds && g.vals == g0.vals && g.alive == g0.alive
    && m < Size(g0) && g0.kinds[m].MemoNode? && !g0.kinds[m].pinned && g0.alive[m]
    && (forall x :: 0 <= x < Size(g0) && x != m ==> Kept(g0, g, x))
    && if g0.sinks[m] == map[] then Empty(g, m) else g.sinks == g0.sinks && Kept(g0, g, m)
  }

  lemma DiscardHeard(g: G)
    requires Ok(g) && g.discards != [] && Lengths(g) && g.discards[|g.discards| - 1] < Size(g)
    requires Discardable(g, g.discards[|g.discards| - 1]) && g.sinks[g.discards[|g.discards| - 1]] != map[]
    ensures Discarded(g, PopDiscard(g), g.discards[|g.discards| - 1])
  {
    hide Ok;
    OnlyUnboundRefl(g, g.discards[|g.discards| - 1]);
  }

  lemma DiscardUnheard(g0: G, g1: G, g: G, m: nat)
    requires Lengths(g0) && m < Size(g0) && Discardable(g0, m) && g0.sinks[m] == map[] && g0.discards != []
    requires m == g0.discards[|g0.discards| - 1] && g1 == ClearCache(PopDiscard(g0), m)
    requires Drained(g1, g, Enter(RestCtx(g0), m), m, 0) && |g.sources[m]| == 0 && OnlyUnbound(g1, g, m)
    ensures Discarded(g0, MakeDirty(g, m), m)
  {
    hide Inv, Evolves, SamePrefix;
    EvolvesSame(g1, g, m, m + 1);
    forall x | 0 <= x < Size(g0) && x != m ensures Kept(g0, MakeDirty(g, m), x) {
      DrainedKeeps(g1, g, Enter(RestCtx(g0), m), m, x);
    }
  }

  lemma DrainedKeeps(g0: G, g: G, c: Ctx, n: nat, x: nat)
    requires Drained(g0, g, c, n, 0) && x < Size(g0) && x != n
    ensures Lengths(g0) && Lengths(g) && x < Size(g) && Kept(g0, g, x)
  {
    hide Inv, Exact, AllDecided, RanOnce, BindingKept;
    if x > n {
      assert SameNode(g0, g, x);
    } else {
      assert g0.dirty[x] == Clean || g.dirty[x] != Clean;
    }
  }

  // ----- who is safe -----

  /** Memo `x` is alive, and pinned or listened to, over live listeners, by a root. */
  ghost predicate Wanted(g: G, x: nat)
    requires Lengths(g)
  {
    x < Size(g) && g.alive[x] && g.kinds[x].MemoNode? && (g.kinds[x].pinned || ReachesRoot(g, x))
  }

  /** Between `g0` and `g` things were discarded: whoever was wanted keeps all it has, and so does what is no memo. */
  ghost predicate Cleared(g0: G, g: G) {
    && Lengths(g0) && Lengths(g) && g.kinds == g0.kinds && g.vals == g0.vals && g.alive == g0.alive
    && (forall x: nat :: x < Size(g0) ==> Kept(g0, g, x) || (g0.kinds[x].MemoNode? && g0.alive[x] && Empty(g, x)))
    && (forall x: nat :: Wanted(g0, x) ==> Kept(g0, g, x))
    && (forall x: nat :: x < Size(g0) && ReachesRoot(g0, x) ==> ReachesRoot(g, x))
    && (forall s, k :: 0 <= s < Size(g0) && k in g.sinks[s] ==> k in g0.sinks[s] && g.sinks[s][k] == g0.sinks[s][k])
  }

  lemma ClearedRefl(g: G)
    requires Lengths(g)
    ensures Cleared(g, g)
  {
  }

  /** Nobody whom a root listens to is discarded, so every root goes on listening to whom it did. */
  lemma {:induction false} RootsGoOn(g: G, g': G, m: nat, x: nat)
    requires Discarded(g, g', m) && x < Size(g) && ReachesRoot(g, x)
    ensures ReachesRoot(g', x) && (g.sinks[m] == map[] ==> x != m)
    decreases Size(g) - x
  {
    if !Root(g, x) {
      var a: nat :| Listens(g, x, a) && ReachesRoot(g, a);
      RootsGoOn(g, g', m, a);
      var k :| k in g.sinks[x] && g.sinks[x][k].sink == a;
      assert k in g'.sinks[x] && g'.sinks[x][k] == g.sinks[x][k];
      assert Listens(g', x, a);
    }
  }

  lemma ClearedDiscard(g0: G, g: G, g': G, m: nat)
    requires Cleared(g0, g) && Discarded(g, g', m)
    ensures Cleared(g0, g')
  {
    hide ReachesRoot, OnlyUnbound;
    forall x: nat | x < Size(g0) && ReachesRoot(g0, x) ensures ReachesRoot(g', x) {
      RootsGoOn(g, g', m, x);
    }
    forall x: nat | Wanted(g0, x) ensures Kept(g0, g', x) {
      assert Kept(g0, g, x);
      if ReachesRoot(g0, x) {
        assert ReachesRoot(g, x);
        RootsGoOn(g, g', m, x);
      } else {
        assert g0.kinds[x].pinned && x != m;
      }
      assert Kept(g, g', x);
    }
    ClearedRows(g0, g, g', m);
    ThinnerStill(g0, g, g', m);
  }

  lemma ClearedRows(g0: G, g: G, g': G, m: nat)
    requires Cleared(g0, g) && Discarded(g, g', m)
    ensures forall x: nat :: x < Size(g0) ==> Kept(g0, g', x) || (g0.kinds[x].MemoNode? && g0.alive[x] && Empty(g', x))
  {
    hide ReachesRoot, OnlyUnbound, Wanted;
    forall x: nat | x < Size(g0)
      ensures Kept(g0, g', x) || (g0.kinds[x].MemoNode? && g0.alive[x] && Empty(g', x))
    {
      assert Kept(g0, g, x) || (g0.kinds[x].MemoNode? && g0.alive[x] && Empty(g, x));
      assert x != m ==> Kept(g, g', x);
    }
  }

  lemma ThinnerStill(g0: G, g: G, g': G, m: nat)
    requires Cleared(g0, g) && Discarded(g, g', m)
    ensures forall s, k ::
      0 <= s < Size(g0) && k in g'.sinks[s] ==> k in g0.sinks[s] && g'.sinks[s][k] == g0.sinks[s][k]
  {
    hide ReachesRoot, Wanted, Kept;
  }

  /** Live effects, keep nodes and pinned memos are roots; a memo that is not pinned needs a live listener. */
  lemma WhoReachesRoot(g: G, x: nat)
    requires Lengths(g) && x < Size(g)
    ensures g.alive[x] && (g.kinds[x].EffectNode? || g.kinds[x].KeepNode?) ==> ReachesRoot(g, x)
    ensures g.alive[x] && g.kinds[x].MemoNode? && g.kinds[x].pinned ==> ReachesRoot(g, x)
    ensures
      && g.kinds[x].MemoNode? && !g.kinds[x].pinned
      && (forall k :: k in g.sinks[x] ==> g.sinks[x][k].sink < Size(g) && !g.alive[g.sinks[x][k].sink]) ==>
        !ReachesRoot(g, x)
  {
  }

  // ----- deferred unbinds -----

  lemma CutIsDead(g: G, src: Source)
    requires Ok(g) && Lengths(g) && src in g.unbinds
    ensures src.node < Size(g) && src.key in g.sinks[src.node]
    ensures var a := g.sinks[src.node][src.key].sink; a < Size(g) && !g.alive[a]
  {
    var i :| 0 <= i < |g.unbinds| && g.unbinds[i] == src;
    assert Orphan(g, g.unbinds[i]);
  }

  lemma {:induction false} UnboundRootsGoOn(g: G, g': G, x: nat)
    requires Ok(g) && Lengths(g) && Lengths(g') && Unbound(g, g') && x < Size(g) && ReachesRoot(g, x)
    ensures ReachesRoot(g', x)
    decreases Size(g) - x
  {
    if !Root(g, x) {
      var a: nat :| Listens(g, x, a) && ReachesRoot(g, a);
      UnboundRootsGoOn(g, g', a);
      UnboundListens(g, g', x, a);
    }
  }

  lemma UnboundListens(g: G, g': G, x: nat, a: nat)
    requires Ok(g) && Lengths(g) && Lengths(g') && Unbound(g, g') && Listens(g, x, a)
    ensures Listens(g', x, a)
  {
    hide Ok;
    var k: nat :| k in g.sinks[x] && g.sinks[x][k].sink == a;
    assert Cut(g, g', x);
    if Source(x, k) in g.unbinds {
      CutIsDead(g, Source(x, k));
    }
  }

  lemma SameSources(g: G, g': G)
    requires Unbound(g, g')
    ensures g'.sources == g.sources
  {
  }

  lemma ClearedUnbound(g0: G, g: G, g': G)
    requires Cleared(g0, g) && Ok(g) && Ok(g') && Unbound(g, g')
    ensures Cleared(g0, g')
  {
    assert Lengths(g');
    hide ReachesRoot, Ok, Wanted;
    forall x: nat | x < Size(g0) && ReachesRoot(g0, x) ensures ReachesRoot(g', x) {
      UnboundRootsGoOn(g, g', x);
    }
    forall x: nat | x < Size(g0)
      ensures Kept(g0, g, x) ==> Kept(g0, g', x)
      ensures Empty(g, x) ==> Empty(g', x)
    {
    }
    forall s, k | 0 <= s < Size(g0) && k in g'.sinks[s] ensures k in g0.sinks[s] && g'.sinks[s][k] == g0.sinks[s][k] {
      assert Cut(g, g', s);
    }
  }

  // ----- when everything has been discarded -----

  lemma {:induction false} ReachedBefore(g0: G, g: G, x: nat)
    requires Cleared(g0, g) && x < Size(g) && ReachesRoot(g, x)
    ensures ReachesRoot(g0, x)
    decreases Size(g) - x
  {
    if !Root(g, x) {
      var a: nat :| Listens(g, x, a) && ReachesRoot(g, a);
      ReachedBefore(g0, g, a);
      assert Listens(g0, x, a);
    }
  }

  /** A live memo still holds something exactly if it did and a root, which it may be itself, listens to it. */
  ghost predicate HoldsIfWanted(g0: G, g: G)
    requires Lengths(g0) && Lengths(g) && Size(g) == Size(g0)
  {
    forall x: nat :: x < Size(g0) && g0.kinds[x].MemoNode? && g0.alive[x] ==>
      (Holds(g, x) <==> Holds(g0, x) && ReachesRoot(g0, x))
  }

  lemma DiscardsAreExact(g0: G, g: G)
    requires Ok(g) && Cleared(g0, g) && g.discards == [] && g.unbinds == []
    ensures HoldsIfWanted(g0, g)
  {
    hide Ok, ReachesRoot;
    forall x: nat | x < Size(g0) && g0.kinds[x].MemoNode? && g0.alive[x]
      ensures Holds(g, x) <==> Holds(g0, x) && ReachesRoot(g0, x)
    {
      assert ReachesRoot(g0, x) ==> Wanted(g0, x);
      if Holds(g, x) {
        DiscardsAreComplete(g, x);
        ReachedBefore(g0, g, x);
      }
    }
  }

  /** A pinned memo is a root: it is never scheduled, and whatever else is scheduled is a live memo. */
  lemma ScheduledIsDiscardable(g: G, m: nat)
    requires Ok(g) && Lengths(g) && m < Size(g) && (g.scheduled[m] || m in g.discards)
    ensures g.kinds[m].MemoNode? && !g.kinds[m].pinned && g.alive[m]
  {
    if m in g.discards {
      var i :| 0 <= i < |g.discards| && g.discards[i] == m;
    }
    assert g.scheduled[m];
    assert Discardable(g, m);
  }
}
