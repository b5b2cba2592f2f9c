// What an evaluation may change: it works on nodes below a bound, leaves clean nodes alone, keeps
// the bindings of outer sinks, and runs each function at most once.
module Evolution {
  import opened DirtyLattice
  import opened Options
  import opened Computation
  import opened GraphState
  import opened BindingSteps
  import opened EvaluationSteps

  predicate Kept(g: G, g': G, m: nat)
    requires Lengths(g) && Lengths(g') && m < Size(g) && m < Size(g')
  {
    && g'.dirty[m] == g.dirty[m]
    && g'.cache[m] == g.cache[m]
    && g'.sources[m] == g.sources[m]
    && g'.seen[m] == g.seen[m]
  }

  predicate SameNode(g: G, g': G, m: nat)
    requires Lengths(g) && Lengths(g') && m < Size(g) && m < Size(g')
  {
    && Kept(g, g', m)
    && g'.scheduled[m] == g.scheduled[m]
    && g'.sinks[m] == g.sinks[m]
  }

  predicate BindingKept(g: G, g': G, s: nat, k: nat)
    requires Lengths(g) && Lengths(g') && s < Size(g) && s < Size(g') && k in g.sinks[s]
  {
    && k in g'.sinks[s]
    && g'.sinks[s][k].sink == g.sinks[s][k].sink
    && (g.sinks[s][k].dirty == Clean ==> g'.sinks[s][k].dirty == Clean)
  }

  /** The function of `n` was run while the log grew from `ran` to `ran'`. */
  predicate RanSince(ran: seq<nat>, ran': seq<nat>, n: nat) {
    exists i :: |ran| <= i < |ran'| && ran'[i] == n
  }

  lemma RanSinceTrans(ran0: seq<nat>, ran1: seq<nat>, ran2: seq<nat>, n: nat)
    requires ran0 <= ran1 <= ran2
    ensures RanSince(ran0, ran2, n) <==> RanSince(ran0, ran1, n) || RanSince(ran1, ran2, n)
  {
    if RanSince(ran0, ran1, n) {
      var i :| |ran0| <= i < |ran1| && ran1[i] == n;
      assert ran2[i] == n;
    }
    if RanSince(ran0, ran2, n) {
      var i :| |ran0| <= i < |ran2| && ran2[i] == n;
      assert i < |ran1| ==> ran1[i] == n;
    }
  }

  /** The cache of `s` is not the value of evaluation from scratch. */
  ghost predicate Outdated(g: G, s: nat) {
    && Lengths(g) && s < Size(g) && Program(g.kinds) && Values(g.kinds, g.vals)
    && g.cache[s] != Some(Eval(g.kinds, g.vals, s))
  }

  /**
   * Dirty bindings stay Dirty, and only bindings at memos change. A binding that was only possibly dirty is
   * resolved together with its source: for a filtering memo it becomes Dirty exactly if the cached value was
   * outdated, for a memo that does not compare exactly if it was run again.
   */
  ghost predicate Exact(g: G, g': G, s: nat, k: nat)
    requires Lengths(g) && Lengths(g') && s < Size(g) && s < Size(g') && k in g.sinks[s]
  {
    && k in g'.sinks[s]
    && var b, b' := g.sinks[s][k].dirty, g'.sinks[s][k].dirty;
    && (b == Dirty || !g.kinds[s].MemoNode? ==> b' == b)
    && (b == MaybeDirty && b' == MaybeDirty ==> g'.cache[s] == g.cache[s] && !RanSince(g.ran, g'.ran, s))
    && (b == MaybeDirty && b' != MaybeDirty ==> g'.dirty[s] == Clean)
    && (b == MaybeDirty && b' != MaybeDirty && g.kinds[s].MemoNode? ==>
          (b' == Dirty <==> if Filters(g, s) then Outdated(g, s) else RanSince(g.ran, g'.ran, s)))
  }

  /** All bindings of `n` itself are resolved exactly. */
  ghost predicate ExactAt(g: G, g': G, n: nat)
    requires Lengths(g) && Lengths(g') && n < Size(g) && n < Size(g')
  {
    forall k :: k in g.sinks[n] && n < g.sinks[n][k].sink ==> Exact(g, g', n, k)
  }

  /** The functions run since `g` belong to nodes below `lo` that were not clean, each one once. */
  predicate RanOnce(g: G, g': G, lo: nat)
    requires Lengths(g) && Lengths(g') && |g.kinds| == |g'.kinds|
  {
    && g.ran <= g'.ran
    && (forall i :: |g.ran| <= i < |g'.ran| ==>
          g'.ran[i] < lo && g'.ran[i] < Size(g) && g.dirty[g'.ran[i]] != Clean && g'.dirty[g'.ran[i]] == Clean)
    && (forall i, j :: |g.ran| <= i < j < |g'.ran| ==> g'.ran[i] != g'.ran[j])
  }

  predicate RanWithin(g: G, g': G, need: set<nat>) {
    && g.ran <= g'.ran
    && forall i :: |g.ran| <= i < |g'.ran| ==> g'.ran[i] in need
  }

  predicate SameWorld(g: G, g': G) {
    && g'.kinds == g.kinds
    && g'.vals == g.vals
    && g'.alive == g.alive
    && g'.unbinds == g.unbinds
    && g'.notifys == g.notifys
  }

  // ----- why a function is run -----

  /**
   * Source `i` gives `n` a reason to be run: its binding was already marked Dirty, or it may be dirty and
   * the source is a memo that compares and has an outdated cache, or one that does not compare and was
   * run again (and so had a reason itself).
   */
  ghost predicate Differs(g: G, ran: seq<nat>, n: nat, i: nat)
    requires Lengths(g) && n < Size(g) && i < |g.sources[n]|
  {
    var src := g.sources[n][i];
    && Linked(g, src, n)
    && var b := g.sinks[src.node][src.key].dirty;
    && (b == Dirty
        || (b == MaybeDirty && g.kinds[src.node].MemoNode?
            && if Filters(g, src.node) then Outdated(g, src.node) else RanSince(g.ran, ran, src.node)))
  }

  ghost predicate HasReason(g: G, ran: seq<nat>, n: nat)
    requires Lengths(g) && n < Size(g)
  {
    g.dirty[n] == Dirty || exists i :: 0 <= i < |g.sources[n]| && Differs(g, ran, n, i)
  }

  /** Every source of `n` still has, evaluated from scratch, the value that `n` read. */
  ghost predicate Unchanged(g: G, n: nat)
    requires Lengths(g) && n < Size(g)
  {
    && Program(g.kinds) && Values(g.kinds, g.vals)
    && forall i :: 0 <= i < |g.sources[n]| ==>
         g.sources[n][i].node < Size(g) && Eval(g.kinds, g.vals, g.sources[n][i].node) == g.seen[n][i]
  }

  /**
   * While the log grew to `ran`, node `n` was run exactly if it had a reason; if not, all its sources are unchanged.
   */
  ghost predicate RunsWhenNeeded(g: G, ran: seq<nat>, n: nat)
    requires Lengths(g) && n < Size(g)
  {
    && (RanSince(g.ran, ran, n) <==> HasReason(g, ran, n))
    && (!RanSince(g.ran, ran, n) ==> Unchanged(g, n))
  }

  /** `n` was evaluated: run if needed, and if not, all its sources have been brought up to date. */
  ghost predicate Decided(g: G, g': G, n: nat)
    requires Lengths(g) && Lengths(g') && n < Size(g) && Size(g) == Size(g')
  {
    && RunsWhenNeeded(g, g'.ran, n)
    && (!RanSince(g.ran, g'.ran, n) ==> SourcesClean(g, g', n))
  }

  predicate SourcesClean(g: G, g': G, n: nat)
    requires Lengths(g) && Lengths(g') && n < Size(g) && Size(g) == Size(g')
  {
    forall i :: 0 <= i < |g.sources[n]| ==> g.sources[n][i].node < Size(g) && g'.dirty[g.sources[n][i].node] == Clean
  }

  /** Whoever was evaluated below `lo` was evaluated for a reason; keep nodes are simply run. */
  ghost predicate AllDecided(g: G, g': G, lo: nat)
    requires Lengths(g) && Lengths(g') && Size(g) == Size(g')
  {
    forall m :: 0 <= m < lo && m < Size(g) && !g.kinds[m].KeepNode? && g.dirty[m] != Clean && g'.dirty[m] == Clean ==>
      Decided(g, g', m)
  }

  /** The nodes whose bindings an evaluation only resolves: those from `hi` up, and those not yet evaluated. */
  predicate Outer(g': G, lo: nat, hi: nat, a: nat)
    requires Lengths(g')
  {
    hi <= a || (a < lo && a < Size(g') && g'.dirty[a] != Clean)
  }

  /**
   * From `g` to `g'` an evaluation ran: nodes below `lo` that were clean, or still are not, are untouched, nodes
   * from `hi` up are untouched altogether, and the bindings of both are only resolved, exactly.
   */
  ghost predicate Evolves(g: G, g': G, lo: nat, hi: nat) {
    && Lengths(g) && Lengths(g') && SameWorld(g, g')
    && (forall m :: hi <= m < Size(g) ==> SameNode(g, g', m))
    && (forall m :: 0 <= m < lo && m < Size(g) && (g.dirty[m] == Clean || g'.dirty[m] != Clean) ==> Kept(g, g', m))
    && (forall s, k :: 0 <= s < Size(g) && k in g.sinks[s] && Outer(g', lo, hi, g.sinks[s][k].sink) ==>
          BindingKept(g, g', s, k))
    && (forall s, k ::
          0 <= s < Size(g) && s < lo && s + 1 < hi && k in g.sinks[s]
          && s < g.sinks[s][k].sink && Outer(g', lo, hi, g.sinks[s][k].sink) ==>
          Exact(g, g', s, k))
    && RanOnce(g, g', lo)
    && AllDecided(g, g', lo)
  }

  lemma EvolvesSame(g: G, g': G, lo: nat, hi: nat)
    requires Evolves(g, g', lo, hi)
    ensures Lengths(g) && Lengths(g') && SameWorld(g, g') && g.ran <= g'.ran
  {
  }

  lemma EvolvesAbove(g: G, g': G, s: nat, m: nat)
    requires Evolves(g, g', s + 1, s + 1) && s < m < Size(g)
    ensures SameNode(g, g', m)
  {
  }

  /** The work on one node seen from a node above it. */
  lemma EvolvesWiden(g: G, g': G, s: nat, n: nat)
    requires Evolves(g, g', s + 1, s + 1) && s < n && s < Size(g) && ExactAt(g, g', s) && g'.dirty[s] == Clean
    ensures Evolves(g, g', n, n + 1)
  {
    forall m | 0 <= m < n && m < Size(g) && (g.dirty[m] == Clean || g'.dirty[m] != Clean) ensures Kept(g, g', m) {
      assert m > s ==> SameNode(g, g', m);
    }
    WidenExact(g, g', s, n);
    DirtyAbove(g, g', s);
  }

  lemma DirtyAbove(g: G, g': G, s: nat)
    requires Evolves(g, g', s + 1, s + 1)
    ensures forall m :: s < m < Size(g) ==> g'.dirty[m] == g.dirty[m]
  {
    forall m | s < m < Size(g) ensures g'.dirty[m] == g.dirty[m] {
      assert SameNode(g, g', m);
    }
  }

  lemma WidenExact(g: G, g': G, s: nat, n: nat)
    requires Evolves(g, g', s + 1, s + 1) && s < n && s < Size(g) && ExactAt(g, g', s) && g'.dirty[s] == Clean
    ensures forall t, k ::
      0 <= t < Size(g) && k in g.sinks[t] && Outer(g', n, n + 1, g.sinks[t][k].sink) ==> BindingKept(g, g', t, k)
    ensures forall t, k ::
      0 <= t < Size(g) && t < n && k in g.sinks[t]
      && t < g.sinks[t][k].sink && Outer(g', n, n + 1, g.sinks[t][k].sink) ==>
      Exact(g, g', t, k)
  {
    forall t, k | 0 <= t < Size(g) && k in g.sinks[t] && Outer(g', n, n + 1, g.sinks[t][k].sink)
      ensures BindingKept(g, g', t, k) && (t < n && t < g.sinks[t][k].sink ==> Exact(g, g', t, k))
    {
      assert Outer(g', s + 1, s + 1, g.sinks[t][k].sink);
      assert t > s ==> SameNode(g, g', t);
    }
  }

  lemma EvolvesTrans(g0: G, g1: G, g2: G, lo: nat, hi: nat)
    requires Evolves(g0, g1, lo, hi) && Evolves(g1, g2, lo, hi) && Forward(g0) && lo <= hi
    ensures Evolves(g0, g2, lo, hi)
  {
    forall m | hi <= m < Size(g0) ensures SameNode(g0, g2, m) {
      assert SameNode(g0, g1, m) && SameNode(g1, g2, m);
    }
    forall m | 0 <= m < lo && m < Size(g0) && (g0.dirty[m] == Clean || g2.dirty[m] != Clean) ensures Kept(g0, g2, m) {
      assert Kept(g0, g1, m) && Kept(g1, g2, m);
    }
    BindingsTrans(g0, g1, g2, lo, hi);
    RanOnceTrans(g0, g1, g2, lo, hi);
    AllDecidedTrans(g0, g1, g2, lo, hi);
  }

  lemma OuterBefore(g0: G, g1: G, g2: G, lo: nat, hi: nat, a: nat)
    requires Evolves(g0, g1, lo, hi) && Evolves(g1, g2, lo, hi) && Outer(g2, lo, hi, a)
    ensures Outer(g1, lo, hi, a)
  {
  }

  lemma BindingsTrans(g0: G, g1: G, g2: G, lo: nat, hi: nat)
    requires Evolves(g0, g1, lo, hi) && Evolves(g1, g2, lo, hi)
    ensures forall s, k ::
      0 <= s < Size(g0) && k in g0.sinks[s] && Outer(g2, lo, hi, g0.sinks[s][k].sink) ==> BindingKept(g0, g2, s, k)
    ensures forall s, k ::
      0 <= s < Size(g0) && s < lo && s + 1 < hi && k in g0.sinks[s]
      && s < g0.sinks[s][k].sink && Outer(g2, lo, hi, g0.sinks[s][k].sink) ==>
      Exact(g0, g2, s, k)
  {
    forall s, k | 0 <= s < Size(g0) && k in g0.sinks[s] && Outer(g2, lo, hi, g0.sinks[s][k].sink)
      ensures BindingKept(g0, g2, s, k) && (s < lo && s + 1 < hi && s < g0.sinks[s][k].sink ==> Exact(g0, g2, s, k))
    {
      OuterBefore(g0, g1, g2, lo, hi, g0.sinks[s][k].sink);
      assert BindingKept(g0, g1, s, k) && BindingKept(g1, g2, s, k);
      if s < lo && s + 1 < hi && s < g0.sinks[s][k].sink {
        assert Exact(g0, g1, s, k) && Exact(g1, g2, s, k);
        ExactTrans(g0, g1, g2, lo, hi, s, k);
      }
    }
  }

  lemma ExactTrans(g0: G, g1: G, g2: G, lo: nat, hi: nat, s: nat, k: nat)
    requires Evolves(g0, g1, lo, hi) && Evolves(g1, g2, lo, hi)
    requires s < Size(g0) && s < lo && k in g0.sinks[s] && k in g1.sinks[s]
    requires BindingKept(g0, g1, s, k) && Exact(g0, g1, s, k) && BindingKept(g1, g2, s, k) && Exact(g1, g2, s, k)
    ensures Exact(g0, g2, s, k)
  {
    assert g1.dirty[s] == Clean ==> Kept(g1, g2, s) && !RanSince(g1.ran, g2.ran, s);
    assert Outdated(g0, s) == Outdated(g1, s) || g0.cache[s] != g1.cache[s];
    RanSinceTrans(g0.ran, g1.ran, g2.ran, s);
  }

  // ----- reasons over two evaluations -----

  lemma AllDecidedTrans(g0: G, g1: G, g2: G, lo: nat, hi: nat)
    requires Evolves(g0, g1, lo, hi) && Evolves(g1, g2, lo, hi) && Forward(g0) && lo <= hi
    ensures AllDecided(g0, g2, lo)
  {
    forall m | 0 <= m < lo && m < Size(g0) && !g0.kinds[m].KeepNode? && g0.dirty[m] != Clean && g2.dirty[m] == Clean
      ensures Decided(g0, g2, m)
    {
      if g1.dirty[m] == Clean {
        DecidedEarlier(g0, g1, g2, lo, hi, m);
      } else {
        DecidedLater(g0, g1, g2, lo, hi, m);
      }
    }
  }

  /** Reasons are not lost. */
  lemma ReasonStays(g: G, ran: seq<nat>, ran': seq<nat>, n: nat)
    requires Lengths(g) && n < Size(g) && g.ran <= ran <= ran' && HasReason(g, ran, n)
    ensures HasReason(g, ran', n)
  {
    if g.dirty[n] != Dirty {
      var i :| 0 <= i < |g.sources[n]| && Differs(g, ran, n, i);
      RanSinceTrans(g.ran, ran, ran', g.sources[n][i].node);
      assert Differs(g, ran', n, i);
    }
  }

  /** `m` was evaluated in the first part, and is left alone in the second. */
  lemma DecidedEarlier(g0: G, g1: G, g2: G, lo: nat, hi: nat, m: nat)
    requires Evolves(g0, g1, lo, hi) && Evolves(g1, g2, lo, hi) && lo <= hi
    requires m < lo && m < Size(g0) && g1.dirty[m] == Clean && Decided(g0, g1, m) && Forward(g0)
    ensures Decided(g0, g2, m)
  {
    RanSinceTrans(g0.ran, g1.ran, g2.ran, m);
    assert !RanSince(g1.ran, g2.ran, m);
    if RanSince(g0.ran, g1.ran, m) {
      ReasonStays(g0, g1.ran, g2.ran, m);
    } else {
      forall i | 0 <= i < |g0.sources[m]|
        ensures !Differs(g0, g2.ran, m, i) && g2.dirty[g0.sources[m][i].node] == Clean
      {
        var s := g0.sources[m][i].node;
        assert Linked(g0, g0.sources[m][i], m);
        assert g1.dirty[s] == Clean && Kept(g1, g2, s) && !RanSince(g1.ran, g2.ran, s);
        RanSinceTrans(g0.ran, g1.ran, g2.ran, s);
        assert !Differs(g0, g1.ran, m, i);
      }
    }
  }

  /** `m` is evaluated in the second part; in the first its bindings were resolved exactly or not touched. */
  lemma DecidedLater(g0: G, g1: G, g2: G, lo: nat, hi: nat, m: nat)
    requires Evolves(g0, g1, lo, hi) && Evolves(g1, g2, lo, hi) && lo <= hi && Forward(g0)
    requires m < lo && m < Size(g0) && g0.dirty[m] != Clean && g1.dirty[m] != Clean && Decided(g1, g2, m)
    ensures Decided(g0, g2, m)
  {
    assert Kept(g0, g1, m);
    RanSinceTrans(g0.ran, g1.ran, g2.ran, m);
    assert !RanSince(g0.ran, g1.ran, m);
    forall i | 0 <= i < |g0.sources[m]| ensures Differs(g0, g2.ran, m, i) == Differs(g1, g2.ran, m, i) {
      SameDiffers(g0, g1, g2, lo, hi, m, i);
    }
    assert HasReason(g0, g2.ran, m) == HasReason(g1, g2.ran, m);
  }

  lemma SameDiffers(g0: G, g1: G, g2: G, lo: nat, hi: nat, m: nat, i: nat)
    requires Evolves(g0, g1, lo, hi) && Evolves(g1, g2, lo, hi) && lo <= hi && Forward(g0)
    requires m < lo && m < Size(g0) && g1.dirty[m] != Clean && i < |g0.sources[m]|
    requires Kept(g0, g1, m)
    ensures Differs(g0, g2.ran, m, i) == Differs(g1, g2.ran, m, i)
  {
    var src := g0.sources[m][i];
    var s := src.node;
    assert Linked(g0, src, m);
    assert Outer(g1, lo, hi, m);
    assert BindingKept(g0, g1, s, src.key) && Exact(g0, g1, s, src.key);
    RanSinceTrans(g0.ran, g1.ran, g2.ran, s);
    assert g1.dirty[s] == Clean ==> !RanSince(g1.ran, g2.ran, s);
    assert g0.cache[s] == g1.cache[s] ==> Outdated(g0, s) == Outdated(g1, s);
  }

  lemma RanOnceTrans(g0: G, g1: G, g2: G, lo: nat, hi: nat)
    requires Evolves(g0, g1, lo, hi) && Evolves(g1, g2, lo, hi)
    ensures RanOnce(g0, g2, lo)
  {
    forall m | 0 <= m < lo && m < Size(g0) && g0.dirty[m] == Clean ensures g1.dirty[m] == Clean {
      assert Kept(g0, g1, m);
    }
    forall i | |g0.ran| <= i < |g2.ran|
      ensures g2.ran[i] < lo && g2.ran[i] < Size(g0) && g0.dirty[g2.ran[i]] != Clean && g2.dirty[g2.ran[i]] == Clean
      ensures i < |g1.ran| <==> g1.dirty[g2.ran[i]] == Clean
    {
      if i < |g1.ran| {
        assert g2.ran[i] == g1.ran[i];
        assert Kept(g1, g2, g1.ran[i]);
      }
    }
    forall i, j | |g0.ran| <= i < j < |g2.ran| ensures g2.ran[i] != g2.ran[j] {
      if j < |g1.ran| {
        assert g2.ran[i] == g1.ran[i] && g2.ran[j] == g1.ran[j];
      }
    }
  }

  lemma RanWithinTrans(g0: G, g1: G, g2: G, need: set<nat>)
    requires RanWithin(g0, g1, need) && RanWithin(g1, g2, need)
    ensures RanWithin(g0, g2, need)
  {
    forall i | |g0.ran| <= i < |g2.ran| ensures g2.ran[i] in need {
      if i < |g1.ran| {
        assert g2.ran[i] == g1.ran[i];
      }
    }
  }

  /** Nested evaluation of a source keeps the positions of `n` that are already settled. */
  lemma EvolvesSettled(g: G, g': G, s: nat, n: nat, len: nat)
    requires Evolves(g, g', s + 1, s + 1) && s < n < Size(g) && Forward(g)
    requires len <= |g.sources[n]| && SettledTo(g, n, len)
    ensures len <= |g'.sources[n]| && SettledTo(g', n, len)
  {
    assert SameNode(g, g', n);
    forall i | 0 <= i < len ensures Settled(g', n, i) {
      var src := g.sources[n][i];
      assert Settled(g, n, i) && Linked(g, src, n);
      assert BindingKept(g, g', src.node, src.key);
      if src.node <= s {
        assert Kept(g, g', src.node);
      } else {
        assert SameNode(g, g', src.node);
      }
    }
  }

  // ----- the steps a running node takes on its own source list -----

  /** The first `i` source positions of `n`, and `n` as a source, are as before. */
  predicate SamePrefix(g: G, g': G, n: nat, i: nat)
    requires Lengths(g) && Lengths(g') && n < Size(g) && n < Size(g')
  {
    && i <= |g.sources[n]| && i <= |g'.sources[n]|
    && (forall j :: 0 <= j < i ==> g'.sources[n][j] == g.sources[n][j] && g'.seen[n][j] == g.seen[n][j])
    && (SettledTo(g, n, i) ==> SettledTo(g', n, i))
    && g'.dirty[n] == g.dirty[n] && g'.cache[n] == g.cache[n]
    && g'.sinks[n] == g.sinks[n] && g'.scheduled[n] == g.scheduled[n]
  }

  /** A step on the source list of `n`: no mark or cache changes, and only bindings of `n` itself do. */
  predicate ListStep(g: G, g': G, n: nat) {
    && Lengths(g) && Lengths(g') && SameWorld(g, g')
    && g'.dirty == g.dirty && g'.cache == g.cache && g'.ran == g.ran
    && (forall m :: 0 <= m < Size(g) && m != n ==> g'.sources[m] == g.sources[m] && g'.seen[m] == g.seen[m])
    && (forall m :: n < m < Size(g) ==> g'.sinks[m] == g.sinks[m] && g'.scheduled[m] == g.scheduled[m])
    && (forall s, k :: 0 <= s < Size(g) && k in g.sinks[s] && g.sinks[s][k].sink != n ==>
          k in g'.sinks[s] && g'.sinks[s][k] == g.sinks[s][k])
  }

  lemma ListStepEvolves(g: G, g': G, n: nat)
    requires ListStep(g, g', n)
    ensures Evolves(g, g', n, n + 1)
  {
  }

  lemma ReuseEvolves(g: G, n: nat, i: nat, v: Value)
    requires Lengths(g) && Forward(g) && Distinct(g) && n < Size(g) && i < |g.sources[n]|
    requires Linked(g, g.sources[n][i], n)
    ensures Evolves(g, Reuse(g, n, i, v), n, n + 1)
    ensures SamePrefix(g, Reuse(g, n, i, v), n, i)
  {
    hide Evolves, Forward, Distinct;
    ListStepEvolves(g, Reuse(g, n, i, v), n);
    ReusePrefix(g, n, i, v);
  }

  lemma ReusePrefix(g: G, n: nat, i: nat, v: Value)
    requires Lengths(g) && Forward(g) && Distinct(g) && n < Size(g) && i < |g.sources[n]|
    requires Linked(g, g.sources[n][i], n)
    ensures SamePrefix(g, Reuse(g, n, i, v), n, i)
  {
    var g' := Reuse(g, n, i, v);
    forall j | 0 <= j < i && Settled(g, n, j) ensures Settled(g', n, j) {
      assert g.sources[n][j] != g.sources[n][i];
    }
  }

  lemma InsertEvolves(g: G, n: nat, src: Source)
    requires Lengths(g) && Insertable(g, n, src)
    ensures Evolves(g, Insert(g, n, src), n, n + 1)
    ensures forall i :: 0 <= i <= |g.sources[n]| ==> SamePrefix(g, Insert(g, n, src), n, i)
  {
    hide Evolves;
    var g' := Insert(g, n, src);
    ListStepEvolves(g, g', n);
    forall j | 0 <= j < |g.sources[n]| && Settled(g, n, j) ensures Settled(g', n, j) {
    }
  }

  lemma PutInEvolves(g: G, n: nat, i: nat, src: Source, v: Value)
    requires Lengths(g) && n < Size(g) && i <= |g.sources[n]|
    ensures Evolves(g, PutIn(g, n, i, src, v), n, n + 1)
    ensures SamePrefix(g, PutIn(g, n, i, src, v), n, i)
  {
    hide Evolves;
    var g' := PutIn(g, n, i, src, v);
    ListStepEvolves(g, g', n);
    forall j | 0 <= j < i && Settled(g, n, j) ensures Settled(g', n, j) {
    }
  }

  lemma TakeOutEvolves(g: G, n: nat, i: nat)
    requires Lengths(g) && n < Size(g) && i < |g.sources[n]|
    ensures Evolves(g, TakeOut(g, n, i), n, n + 1)
    ensures SamePrefix(g, TakeOut(g, n, i), n, i)
  {
    hide Evolves;
    var g' := TakeOut(g, n, i);
    ListStepEvolves(g, g', n);
    forall j | 0 <= j < i && Settled(g, n, j) ensures Settled(g', n, j) {
    }
  }

  lemma UnbindOnly(g: G, n: nat, src: Source)
    requires Lengths(g) && Stray(g, src) && g.sinks[src.node][src.key].sink == n && src.node < n < Size(g)
    ensures Evolves(g, Unbind(g, src), n, n + 1)
  {
    hide Evolves;
    ListStepEvolves(g, Unbind(g, src), n);
  }

  lemma UnbindEvolves(g: G, n: nat, src: Source, i: nat)
    requires Lengths(g) && Stray(g, src) && g.sinks[src.node][src.key].sink == n && src.node < n < Size(g)
    requires i <= |g.sources[n]|
    ensures Evolves(g, Unbind(g, src), n, n + 1)
    ensures SamePrefix(g, Unbind(g, src), n, i)
  {
    hide Evolves;
    UnbindOnly(g, n, src);
    UnbindPrefix(g, n, src, i);
  }

  lemma UnbindPrefix(g: G, n: nat, src: Source, i: nat)
    requires Lengths(g) && Stray(g, src) && g.sinks[src.node][src.key].sink == n && src.node < n < Size(g)
    requires i <= |g.sources[n]|
    ensures SamePrefix(g, Unbind(g, src), n, i)
  {
    var g' := Unbind(g, src);
    forall j | 0 <= j < i && Settled(g, n, j) ensures Settled(g', n, j) {
      assert g.sources[n][j] != src;
    }
  }

  lemma SamePrefixTrans(g0: G, g1: G, g2: G, n: nat, i: nat)
    requires Lengths(g0) && Lengths(g1) && Lengths(g2) && n < Size(g0) && n < Size(g1) && n < Size(g2)
    requires SamePrefix(g0, g1, n, i) && SamePrefix(g1, g2, n, i)
    ensures SamePrefix(g0, g2, n, i)
  {
  }

  /** `SinkBindings::bind` with a new entry: the dependency that it displaces is unbound at once. */
  function Bound(g: G, n: nat, i: nat, src: Source, v: Value): G
    requires Lengths(g) && Insertable(g, n, src) && i <= |g.sources[n]|
    requires i < |g.sources[n]| ==> g.sources[n][i].node < Size(g)
  {
    var g2 := PutIn(Insert(g, n, src), n, i, src, v);
    if i < |g.sources[n]| then Unbind(g2, g.sources[n][i]) else g2
  }

  lemma BoundKeeps(g: G, c: Ctx, n: nat, i: nat, src: Source, v: Value)
    requires Inv(g, c) && c.loose == {} && n in c.running && Insertable(g, n, src) && i <= |g.sources[n]|
    requires !g.kinds[n].StateNode?
    requires i < |g.sources[n]| ==> g.sources[n][i].node < Size(g)
    ensures Inv(Bound(g, n, i, src, v), c)
  {
    var c1 := c.(loose := {src});
    assert c.(loose := c.loose + {src}) == c1;
    InsertKeeps(g, c, n, src);
    var g1 := Insert(g, n, src);
    PutInKeeps(g1, c1, n, i, src, v);
    var c2 := PutInCtx(g1, c1, n, i, src);
    if i < |g.sources[n]| {
      assert c2.(loose := c2.loose - {g.sources[n][i]}) == c;
      UnbindKeeps(PutIn(g1, n, i, src, v), c2, g.sources[n][i]);
    } else {
      assert c2 == c;
    }
  }

  lemma BoundEvolves(g: G, c: Ctx, n: nat, i: nat, src: Source, v: Value)
    requires Lengths(g) && Links(g, c) && Insertable(g, n, src) && i <= |g.sources[n]|
    ensures i < |g.sources[n]| ==> g.sources[n][i].node < Size(g)
    ensures Evolves(g, Bound(g, n, i, src, v), n, n + 1)
    ensures SamePrefix(g, Bound(g, n, i, src, v), n, i)
  {
    hide Evolves, SettledTo;
    var g1 := Insert(g, n, src);
    var g2 := PutIn(g1, n, i, src, v);
    InsertEvolves(g, n, src);
    PutInEvolves(g1, n, i, src, v);
    FramesTrans(g, g1, g2, n, i);
    if i < |g.sources[n]| {
      var displaced := g.sources[n][i];
      assert Linked(g, displaced, n);
      BoundStray(g, c, n, i, src, v);
      UnbindEvolves(g2, n, displaced, i);
      FramesTrans(g, g2, Unbind(g2, displaced), n, i);
    }
  }

  lemma BoundStray(g: G, c: Ctx, n: nat, i: nat, src: Source, v: Value)
    requires Lengths(g) && Links(g, c) && Insertable(g, n, src) && i < |g.sources[n]|
    ensures Stray(PutIn(Insert(g, n, src), n, i, src, v), g.sources[n][i])
  {
    assert Linked(g, g.sources[n][i], n);
    assert forall j :: 0 <= j < |g.unbinds| ==> Orphan(g, g.unbinds[j]);
  }

  lemma BoundAt(g: G, n: nat, i: nat, src: Source, v: Value)
    requires Lengths(g) && Forward(g) && Insertable(g, n, src) && i <= |g.sources[n]|
    ensures i < |g.sources[n]| ==> g.sources[n][i].node < Size(g)
    ensures var g' := Bound(g, n, i, src, v);
      && i < |g'.sources[n]| && g'.sources[n][i] == src && g'.seen[n][i] == v
      && Linked(g', src, n) && g'.sinks[src.node][src.key].dirty == Clean
      && g'.dirty == g.dirty && g'.cache == g.cache && g'.ran == g.ran
  {
    if i < |g.sources[n]| {
      assert Linked(g, g.sources[n][i], n);
    }
  }

  /** `drain`, one element: take source position `len` of `n` out of the list and unbind it. */
  function DrainAt(g: G, n: nat, len: nat): G
    requires Lengths(g) && n < Size(g) && len < |g.sources[n]| && g.sources[n][len].node < Size(g)
  {
    Unbind(TakeOut(g, n, len), g.sources[n][len])
  }

  lemma DrainAtSame(g: G, n: nat, len: nat)
    requires Lengths(g) && n < Size(g) && len < |g.sources[n]| && g.sources[n][len].node < Size(g)
    ensures var g' := DrainAt(g, n, len);
      && |g'.sources[n]| == |g.sources[n]| - 1 && g'.dirty == g.dirty && g'.cache == g.cache && g'.ran == g.ran
      && (forall a :: 0 <= a < Size(g) && a != n ==> g'.sources[a] == g.sources[a])
  {
  }

  lemma DrainStep(g: G, c: Ctx, n: nat, len: nat)
    requires Inv(g, c) && c.loose == {} && n in c.running && Live(g, n) && len < |g.sources[n]|
    ensures g.sources[n][len].node < Size(g)
    ensures Inv(DrainAt(g, n, len), c)
    ensures Evolves(g, DrainAt(g, n, len), n, n + 1) && SamePrefix(g, DrainAt(g, n, len), n, len)
  {
    var src := g.sources[n][len];
    assert Linked(g, src, n);
    var g1 := TakeOut(g, n, len);
    var c1 := c.(loose := c.loose + {src});
    TakeOutKeeps(g, c, n, len);
    TakeOutEvolves(g, n, len);
    UnbindKeeps(g1, c1, src);
    assert c1.(loose := c1.loose - {src}) == c;
    DrainStepFrame(g, g1, n, len);
  }

  lemma DrainStepFrame(g: G, g1: G, n: nat, len: nat)
    requires Lengths(g) && n < Size(g) && len < |g.sources[n]| && Linked(g, g.sources[n][len], n)
    requires g1 == TakeOut(g, n, len) && Stray(g1, g.sources[n][len]) && Forward(g)
    requires Evolves(g, g1, n, n + 1) && SamePrefix(g, g1, n, len)
    ensures Evolves(g, DrainAt(g, n, len), n, n + 1) && SamePrefix(g, DrainAt(g, n, len), n, len)
  {
    hide Evolves, SamePrefix, Forward;
    var src := g.sources[n][len];
    UnbindEvolves(g1, n, src, len);
    EvolvesTrans(g, g1, DrainAt(g, n, len), n, n + 1);
    SamePrefixTrans(g, g1, DrainAt(g, n, len), n, len);
  }

  /** From `g0` to `g` some dependencies of `n` past its first `len` were unbound, nothing else. */
  ghost predicate Drained(g0: G, g: G, c: Ctx, n: nat, len: nat) {
    && Inv(g, c)
    && Live(g, n)
    && Evolves(g0, g, n, n + 1)
    && n < Size(g0) && Forward(g0)
    && SamePrefix(g0, g, n, len)
    && g.dirty == g0.dirty && g.cache == g0.cache && g.ran == g0.ran
    && (forall a :: 0 <= a < Size(g) && a != n ==> g.sources[a] == g0.sources[a])
    && |g.sources[n]| <= |g0.sources[n]| && (|g.sources[n]| == |g0.sources[n]| ==> g == g0)
  }

  lemma DrainedRefl(g: G, c: Ctx, n: nat, len: nat)
    requires Inv(g, c) && Live(g, n) && len <= |g.sources[n]|
    ensures Drained(g, g, c, n, len)
  {
  }

  lemma DrainedStep(g0: G, g: G, g': G, c: Ctx, n: nat, len: nat)
    requires Drained(g0, g, c, n, len) && len < |g.sources[n]| && Inv(g', c)
    requires Evolves(g, g', n, n + 1) && SamePrefix(g, g', n, len)
    requires g'.dirty == g.dirty && g'.cache == g.cache && g'.ran == g.ran
    requires forall a :: 0 <= a < Size(g) && a != n ==> g'.sources[a] == g.sources[a]
    requires |g'.sources[n]| < |g.sources[n]|
    ensures Drained(g0, g', c, n, len)
  {
    FramesTrans(g0, g, g', n, len);
  }

  lemma FramesTrans(g0: G, g: G, g': G, n: nat, len: nat)
    requires Evolves(g0, g, n, n + 1) && Evolves(g, g', n, n + 1) && n < Size(g0) && Forward(g0)
    requires SamePrefix(g0, g, n, len) && SamePrefix(g, g', n, len)
    ensures Evolves(g0, g', n, n + 1) && SamePrefix(g0, g', n, len)
  {
    hide AllDecided, Exact, RanOnce;
    EvolvesTrans(g0, g, g', n, n + 1);
    SamePrefixTrans(g0, g, g', n, len);
  }

  lemma EvolvesPrefix(g: G, g': G, s: nat, n: nat, i: nat)
    requires Evolves(g, g', s + 1, s + 1) && s < n < Size(g) && Forward(g) && i <= |g.sources[n]|
    ensures SamePrefix(g, g', n, i)
  {
    assert SameNode(g, g', n);
    if SettledTo(g, n, i) {
      EvolvesSettled(g, g', s, n, i);
    }
  }

  // ----- from the parts of an update to the whole -----

  function Logged(g: G, n: nat): G { g.(ran := g.ran + [n]) }

  /** Steps that run nothing and change no mark may be looked at with another log. */
  lemma EvolvesUnlogged(g: G, g': G, n: nat)
    requires Evolves(Logged(g, n), g', n, n + 1) && g'.dirty == g.dirty && g'.ran == g.ran + [n]
    ensures Evolves(g, g'.(ran := g.ran), n, n + 1)
  {
    var l, h := Logged(g, n), g'.(ran := g.ran);
    forall m | n + 1 <= m < Size(g) ensures SameNode(g, h, m) {
      assert SameNode(l, g', m);
    }
    forall m | 0 <= m < n && m < Size(g) && (g.dirty[m] == Clean || h.dirty[m] != Clean) ensures Kept(g, h, m) {
      assert Kept(l, g', m);
    }
    BindingsUnlogged(g, g', n);
  }

  lemma BindingsUnlogged(g: G, g': G, n: nat)
    requires Evolves(Logged(g, n), g', n, n + 1) && g'.dirty == g.dirty && g'.ran == g.ran + [n]
    ensures var h := g'.(ran := g.ran);
      forall s, k :: 0 <= s < Size(g) && k in g.sinks[s] && Outer(h, n, n + 1, g.sinks[s][k].sink) ==>
        BindingKept(g, h, s, k) && (s < n && s < g.sinks[s][k].sink ==> Exact(g, h, s, k))
  {
    var l, h := Logged(g, n), g'.(ran := g.ran);
    forall s, k | 0 <= s < Size(g) && k in g.sinks[s] && Outer(h, n, n + 1, g.sinks[s][k].sink)
      ensures BindingKept(g, h, s, k) && (s < n && s < g.sinks[s][k].sink ==> Exact(g, h, s, k))
    {
      assert Outer(g', n, n + 1, g.sinks[s][k].sink);
      assert BindingKept(l, g', s, k) && (s < n && s < g.sinks[s][k].sink ==> Exact(l, g', s, k));
      assert Outdated(l, s) == Outdated(g, s);
    }
  }

  /** A check found nothing: `n` is clean without having been run. */
  lemma CheckEvolves(g: G, g': G, n: nat)
    requires Evolves(g, g', n, n + 1) && n < Size(g) && g.dirty[n] != Clean && g'.dirty[n] == Clean
    requires g.kinds[n].KeepNode? || Decided(g, g', n)
    ensures Evolves(g, g', n + 1, n + 1)
  {
    assert forall a: nat {:trigger Outer(g', n + 1, n + 1, a)} :: Outer(g', n + 1, n + 1, a) ==> Outer(g', n, n + 1, a);
  }

  /** A run that had a reason is complete, and logged. */
  lemma RunEvolves(g: G, h: G, n: nat)
    requires Evolves(g, h, n, n + 1)
    requires n < Size(g) && g.dirty[n] != Clean && h.dirty[n] == Clean
    requires g.kinds[n].KeepNode? || HasReason(g, h.ran, n)
    ensures Evolves(g, Logged(h, n), n + 1, n + 1)
  {
    var g' := Logged(h, n);
    forall m: nat ensures RanSince(g.ran, g'.ran, m) == (RanSince(g.ran, h.ran, m) || m == n) {
      LogOne(g.ran, h.ran, n, m);
    }
    forall s, k | 0 <= s < Size(g) && k in g.sinks[s] && Outer(g', n + 1, n + 1, g.sinks[s][k].sink)
      ensures BindingKept(g, g', s, k) && (s < n && s < g.sinks[s][k].sink ==> Exact(g, g', s, k))
    {
      assert Outer(h, n, n + 1, g.sinks[s][k].sink);
      assert BindingKept(g, h, s, k) && (s < n && s < g.sinks[s][k].sink ==> Exact(g, h, s, k));
    }
    forall m | n + 1 <= m < Size(g) ensures SameNode(g, g', m) {
      assert SameNode(g, h, m);
    }
    RunDecides(g, h, n);
  }

  lemma LogOne(ran: seq<nat>, ran': seq<nat>, n: nat, m: nat)
    requires ran <= ran'
    ensures RanSince(ran, ran' + [n], m) == (RanSince(ran, ran', m) || m == n)
  {
    assert (ran' + [n])[|ran'|] == n;
    if RanSince(ran, ran', m) {
      var i :| |ran| <= i < |ran'| && ran'[i] == m;
      assert (ran' + [n])[i] == m;
    }
  }

  lemma RunDecides(g: G, h: G, n: nat)
    requires Evolves(g, h, n, n + 1)
    requires n < Size(g) && g.dirty[n] != Clean && h.dirty[n] == Clean
    requires g.kinds[n].KeepNode? || HasReason(g, h.ran, n)
    ensures AllDecided(g, Logged(h, n), n + 1)
  {
    var g' := Logged(h, n);
    forall m | 0 <= m < n + 1 && m < Size(g) && !g.kinds[m].KeepNode? && g.dirty[m] != Clean && g'.dirty[m] == Clean
      ensures Decided(g, g', m)
    {
      LogOne(g.ran, h.ran, n, m);
      if m == n {
        ReasonStays(g, h.ran, g'.ran, n);
      } else {
        LoggedDecided(g, h, n, m);
      }
    }
  }

  lemma LoggedDecided(g: G, h: G, n: nat, m: nat)
    requires Evolves(g, h, n, n + 1) && m < n < Size(g) && Decided(g, h, m)
    ensures Decided(g, Logged(h, n), m)
  {
    var g' := Logged(h, n);
    LogOne(g.ran, h.ran, n, m);
    forall i | 0 <= i < |g.sources[m]| ensures Differs(g, g'.ran, m, i) == Differs(g, h.ran, m, i) {
      LogOne(g.ran, h.ran, n, g.sources[m][i].node);
    }
    assert HasReason(g, g'.ran, m) == HasReason(g, h.ran, m);
  }
}
