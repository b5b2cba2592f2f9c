// When a function must run, said of the state before anything runs: the node itself is marked Dirty, or one of
// its sources has really changed since the node read it. Evaluation runs exactly such nodes.
module Causes {
  import opened Options
  import opened DirtyLattice
  import opened Computation
  import opened GraphState
  import opened BindingSteps
  import opened EvaluationSteps
  import opened Evolution
  import opened Runs
  import opened AtRest
  import opened ReactionOrder

  /**
   * Source `i` of `n` has really changed: its binding is Dirty, or only possibly so and the source is a memo that
   * compares and has another value than `n` read, or one that does not compare and must itself run.
   */
  ghost predicate SourceChanged(g: G, n: nat, i: nat)
    requires Base(g) && n < Size(g) && i < |g.sources[n]|
    decreases n, 0
  {
    var src := g.sources[n][i];
    && Linked(g, src, n)
    && var b := g.sinks[src.node][src.key].dirty;
    && (b == Dirty
        || (b == MaybeDirty && g.kinds[src.node].MemoNode?
            && if Filters(g, src.node) then Eval(g.kinds, g.vals, src.node) != g.seen[n][i] else HasToRun(g, src.node)))
  }

  ghost predicate HasToRun(g: G, n: nat)
    requires Base(g) && n < Size(g)
    decreases n, 1
  {
    g.dirty[n] == Dirty || exists i :: 0 <= i < |g.sources[n]| && SourceChanged(g, n, i)
  }

  /** A memo is outdated, behind a binding that may be dirty, exactly if its value is not the one that was read. */
  lemma OutdatedIsChanged(g: G, n: nat, i: nat)
    requires Ok(g) && g.notifys == [] && Base(g) && n < Size(g) && i < |g.sources[n]|
    requires Linked(g, g.sources[n][i], n)
    requires var src := g.sources[n][i]; g.sinks[src.node][src.key].dirty == MaybeDirty && g.kinds[src.node].MemoNode?
    ensures Outdated(g, g.sources[n][i].node) <==> Eval(g.kinds, g.vals, g.sources[n][i].node) != g.seen[n][i]
    ensures g.dirty[g.sources[n][i].node] != Clean
  {
    QuietIsIdle(g);
    assert SeenAt(g, IDLE, n, i);
    assert Marked(g, IDLE, g.sources[n][i].node, g.sources[n][i].key);
  }

  /** For a node that an evaluation brought up to date, having a reason is the same as having to run. */
  lemma {:induction false} ReasonIsCause(g0: G, g: G, lo: nat, hi: nat, n: nat)
    requires Ok(g0) && g0.notifys == [] && Base(g0) && Evolves(g0, g, lo, hi)
    requires n < lo && n < Size(g0) && !g0.kinds[n].KeepNode? && g0.dirty[n] != Clean && g.dirty[n] == Clean
    ensures HasReason(g0, g.ran, n) <==> HasToRun(g0, n)
    decreases n
  {
    assert Decided(g0, g, n);
    if forall i :: 0 <= i < |g0.sources[n]| ==> g.dirty[g0.sources[n][i].node] == Clean {
      forall i | 0 <= i < |g0.sources[n]| ensures Differs(g0, g.ran, n, i) <==> SourceChanged(g0, n, i) {
        SameCause(g0, g, lo, hi, n, i);
      }
    } else {
      // some source was never reached, so `n` ran before, for an earlier reason
      SomeCause(g0, g, lo, hi, n);
    }
  }

  lemma SameCause(g0: G, g: G, lo: nat, hi: nat, n: nat, i: nat)
    requires Ok(g0) && g0.notifys == [] && Base(g0) && Evolves(g0, g, lo, hi)
    requires n < lo && n < Size(g0) && !g0.kinds[n].KeepNode? && i < |g0.sources[n]|
    requires g0.sources[n][i].node < Size(g0) && g.dirty[g0.sources[n][i].node] == Clean
    ensures Differs(g0, g.ran, n, i) <==> SourceChanged(g0, n, i)
    decreases n, 0
  {
    var src := g0.sources[n][i];
    assert Linked(g0, src, n);
    if g0.sinks[src.node][src.key].dirty == MaybeDirty && g0.kinds[src.node].MemoNode? {
      OutdatedIsChanged(g0, n, i);
      if !Filters(g0, src.node) {
        ReasonIsCause(g0, g, lo, hi, src.node);
        assert Decided(g0, g, src.node);
      }
    }
  }

  /** A reason that was found is a cause. */
  lemma SomeCause(g0: G, g: G, lo: nat, hi: nat, n: nat)
    requires Ok(g0) && g0.notifys == [] && Base(g0) && Evolves(g0, g, lo, hi)
    requires n < lo && n < Size(g0) && !g0.kinds[n].KeepNode? && g0.dirty[n] != Clean && g.dirty[n] == Clean
    requires !SourcesClean(g0, g, n)
    ensures HasReason(g0, g.ran, n) && HasToRun(g0, n)
    decreases n, 0
  {
    assert Decided(g0, g, n);
    assert HasReason(g0, g.ran, n);
    if g0.dirty[n] != Dirty {
      var i :| 0 <= i < |g0.sources[n]| && Differs(g0, g.ran, n, i);
      var src := g0.sources[n][i];
      if g0.sinks[src.node][src.key].dirty == MaybeDirty {
        OutdatedIsChanged(g0, n, i);
        if !Filters(g0, src.node) {
          ReasonIsCause(g0, g, lo, hi, src.node);
          assert Decided(g0, g, src.node);
        }
      }
      assert SourceChanged(g0, n, i);
    }
  }

  /** A clean node need not run. */
  lemma CleanNeedNotRun(g: G, n: nat)
    requires Ok(g) && g.notifys == [] && Base(g) && Live(g, n) && !g.kinds[n].StateNode? && g.dirty[n] == Clean
    ensures !HasToRun(g, n)
  {
    QuietIsIdle(g);
    forall i | 0 <= i < |g.sources[n]| ensures !SourceChanged(g, n, i) {
      CleanIsSettled(g, IDLE, n, i);
    }
  }

  /** Over a whole dispatch: every live effect of the phase ran exactly if, at the start, it had to. */
  lemma DispatchRunsCaused(g0: G, g: G, phase: Option<int>, e: nat)
    requires Ok(g0) && g0.notifys == [] && Dispatched(g0, g, phase) && Lengths(g)
    requires InBatch(g0, e, phase) && g.dirty[e] == Clean
    ensures RanSince(g0.ran, g.ran, e) <==> HasToRun(g0, e)
    ensures !HasToRun(g0, e) ==> Unchanged(g0, e)
  {
    EffectDecided(g0, g, phase, e);
    if g0.dirty[e] == Clean {
      CleanNeedNotRun(g0, e);
      CleanHasNoReason(g0, g.ran, e);
    } else {
      ReasonIsCause(g0, g, Size(g0), Size(g0), e);
    }
  }

  /**
   * Every live effect of the phase is clean, ran exactly if it had to at the start, and if not, its sources are
   * unchanged.
   */
  ghost predicate RanAsNeeded(g0: G, g: G, phase: Option<int>) {
    && Base(g0) && Size(g0) == Size(g) == |g.dirty|
    && forall e: nat :: InBatch(g0, e, phase) ==>
         && g.dirty[e] == Clean
         && (RanSince(g0.ran, g.ran, e) <==> HasToRun(g0, e))
         && (!HasToRun(g0, e) ==> Unchanged(g0, e))
  }

  lemma DispatchIsExact(g0: G, g: G, phase: Option<int>)
    requires Ok(g0) && g0.notifys == [] && Dispatched(g0, g, phase) && Lengths(g)
    requires forall e: nat :: InBatch(g0, e, phase) ==> g.dirty[e] == Clean
    ensures RanAsNeeded(g0, g, phase)
  {
    forall e: nat | InBatch(g0, e, phase)
      ensures (RanSince(g0.ran, g.ran, e) <==> HasToRun(g0, e)) && (!HasToRun(g0, e) ==> Unchanged(g0, e))
    {
      DispatchRunsCaused(g0, g, phase, e);
    }
  }

  /** Over a read of `n`: only functions that had to run were run, and a memo `n` exactly if it had to. */
  ghost predicate ReadAsNeeded(g0: G, g: G, n: nat) {
    && Base(g0) && Size(g0) == Size(g) && n < Size(g0)
    && (forall m: nat :: m < Size(g0) && !g0.kinds[m].KeepNode? && RanSince(g0.ran, g.ran, m) ==> HasToRun(g0, m))
    && (g0.kinds[n].MemoNode? ==> (RanSince(g0.ran, g.ran, n) <==> HasToRun(g0, n)))
  }

  lemma ReadIsExact(g0: G, g: G, n: nat)
    requires Ok(g0) && g0.notifys == [] && Fetched(g0, g, n) && Live(g0, n)
    ensures ReadAsNeeded(g0, g, n)
  {
    forall m: nat | m < Size(g0) && !g0.kinds[m].KeepNode? && RanSince(g0.ran, g.ran, m) ensures HasToRun(g0, m) {
      ReadRunsCaused(g0, g, n, m);
    }
    if g0.kinds[n].MemoNode? {
      ReadRunsCaused(g0, g, n, n);
      if g0.dirty[n] == Clean {
        CleanNeedNotRun(g0, n);
      }
    }
  }

  /** Over a read: a node that was brought up to date ran exactly if it had to, and nothing else ran. */
  lemma ReadRunsCaused(g0: G, g: G, n: nat, m: nat)
    requires Ok(g0) && g0.notifys == [] && Fetched(g0, g, n) && m < Size(g0) && !g0.kinds[m].KeepNode?
    ensures RanSince(g0.ran, g.ran, m) ==> HasToRun(g0, m)
    ensures m < Size(g) && g0.dirty[m] != Clean && g.dirty[m] == Clean && HasToRun(g0, m) ==> RanSince(g0.ran, g.ran, m)
  {
    hide Ok, Evolves, ExactAt, RanWithin, Need, HasReason, HasToRun;
    FetchedDecides(g0, g, n, m);
    FetchedSame(g0, g, n);
    if m < n + 1 && g0.dirty[m] != Clean && g.dirty[m] == Clean {
      ReasonIsCause(g0, g, n + 1, n + 1, m);
    }
    if RanSince(g0.ran, g.ran, m) {
      FetchedRuns(g0, g, n, m);
    }
    if n < m {
      EvolvesAbove(g0, g, n, m);
    }
  }

  lemma FetchedSame(g0: G, g: G, n: nat)
    requires Fetched(g0, g, n)
    ensures Lengths(g0) && Lengths(g) && SameWorld(g0, g)
  {
    EvolvesSame(g0, g, n + 1, n + 1);
  }

  lemma FetchedRuns(g0: G, g: G, n: nat, m: nat)
    requires Fetched(g0, g, n) && m < Size(g0) && RanSince(g0.ran, g.ran, m)
    ensures g0.dirty[m] != Clean && m < Size(g) && g.dirty[m] == Clean && m < n + 1
  {
    hide AllDecided, Exact, Need;
    var i :| |g0.ran| <= i < |g.ran| && g.ran[i] == m;
  }
}
