// Running, checking and resolving a node, as functions on the graph state
// (`SourceBinder` in src/core/source_binder.rs, `ScanNode::update` in src/signal/builder/scan.rs).
module EvaluationSteps {
  import opened DirtyLattice
  import opened Options
  import opened Computation
  import opened GraphState
  import opened BindingSteps

  function Enter(c: Ctx, n: nat): Ctx { c.(running := c.running + {n}) }

  function Leave(c: Ctx, n: nat): Ctx { c.(running := c.running - {n}, resolved := c.resolved - {n}) }

  /** Only evaluations of nodes above `n` are in progress. */
  predicate Above(c: Ctx, n: nat) {
    && c.marking == {} && c.stale == {} && c.resolved == {} && c.loose == {}
    && forall r :: r in c.running ==> n < r
  }

  predicate Live(g: G, n: nat)
    requires Lengths(g)
  {
    n < Size(g) && g.alive[n]
  }

  // ----- a clean node is fresh -----

  /** Source position `i` of `a` is clean on both sides and still has the value `a` read. */
  predicate Settled(g: G, a: nat, i: nat)
    requires Lengths(g) && a < Size(g) && i < |g.sources[a]|
  {
    var src := g.sources[a][i];
    && src.node < Size(g) && src.key in g.sinks[src.node]
    && g.sinks[src.node][src.key].dirty == Clean
    && g.dirty[src.node] == Clean
    && Current(g, src.node) == Some(g.seen[a][i])
  }

  predicate SettledTo(g: G, a: nat, len: nat)
    requires Lengths(g) && a < Size(g) && len <= |g.sources[a]|
  {
    forall i :: 0 <= i < len ==> Settled(g, a, i)
  }

  lemma CleanIsSettled(g: G, c: Ctx, n: nat, i: nat)
    requires Shape(g, c) && Coherent(g, c) && Live(g, n) && g.dirty[n] == Clean && n !in c.running
    requires Above(c, n) && i < |g.sources[n]|
    ensures Settled(g, n, i)
  {
    var src := g.sources[n][i];
    assert Linked(g, src, n);
    assert Marked(g, c, src.node, src.key);
    assert SeenAt(g, c, n, i);
  }

  lemma SourceIsLive(g: G, c: Ctx, n: nat, i: nat)
    requires Shape(g, c) && n < Size(g) && i < |g.sources[n]|
    ensures var s := g.sources[n][i].node;
      s < n && Live(g, s) && (g.kinds[s].StateNode? || g.kinds[s].MemoNode?) && g.alive[n] && !g.kinds[n].StateNode?
  {
    assert Linked(g, g.sources[n][i], n);
    assert NodeOk(g, n);
    assert NodeOk(g, g.sources[n][i].node);
  }

  /** In a coherent graph a clean node holds the value of evaluation from scratch. */
  lemma {:induction false} CleanIsFresh(g: G, c: Ctx, n: nat)
    requires Shape(g, c) && Coherent(g, c) && Live(g, n) && Above(c, n)
    requires g.kinds[n].StateNode? || (g.kinds[n].MemoNode? && g.dirty[n] == Clean)
    ensures Current(g, n) == Some(Eval(g.kinds, g.vals, n))
    decreases n, 1
  {
    if g.kinds[n].MemoNode? {
      forall i | 0 <= i < |g.sources[n]| ensures Settled(g, n, i) {
        CleanIsSettled(g, c, n, i);
      }
      SettledIsFresh(g, c, n, |g.sources[n]|);
      assert TracedAt(g, n);
      AdvanceMeaning(g.kinds, g.vals, CompOf(g.kinds[n]), n, g.sources[n], g.seen[n], |g.sources[n]|);
    }
  }

  lemma {:induction false} SettledIsFresh(g: G, c: Ctx, n: nat, len: nat)
    requires Shape(g, c) && Coherent(g, c) && n < Size(g) && len <= |g.sources[n]| && SettledTo(g, n, len)
    requires c.marking == {} && c.stale == {} && c.resolved == {} && c.loose == {}
    requires forall r :: r in c.running ==> n <= r
    ensures forall i ::
      0 <= i < len ==> g.sources[n][i].node < n && Eval(g.kinds, g.vals, g.sources[n][i].node) == g.seen[n][i]
    decreases n, 0
  {
    forall i | 0 <= i < len
      ensures g.sources[n][i].node < n && Eval(g.kinds, g.vals, g.sources[n][i].node) == g.seen[n][i]
    {
      SourceIsLive(g, c, n, i);
      assert Settled(g, n, i);
      CleanIsFresh(g, c, g.sources[n][i].node);
    }
  }

  // ----- steps of an update -----

  /** The node's own mark goes to Clean, before its function runs or after a check found no change. */
  function Settle(g: G, n: nat): G
    requires Lengths(g) && n < Size(g)
  {
    g.(dirty := g.dirty[n := Clean])
  }

  lemma SettleKeeps(g: G, c: Ctx, n: nat)
    requires Inv(g, c) && n < Size(g)
    ensures Inv(Settle(g, n), Enter(c, n))
  {
    var g' := Settle(g, n);
    forall b: nat | b < Size(g') ensures NodeOk(g', b) {
      assert NodeOk(g, b);
    }
    assert Kinds(g');
    SameLinksKeeps(g, g', c);
    LinksEnter(g', c, n);
    SettleCoherent(g, c, n);
    SettleQueued(g, c, n);
  }

  lemma LinksEnter(g: G, c: Ctx, n: nat)
    requires Lengths(g) && Links(g, c)
    ensures Links(g, Enter(c, n))
  {
    forall s, k | 0 <= s < Size(g) && k in g.sinks[s] ensures Owned(g, Enter(c, n), s, k) {
      assert Owned(g, c, s, k);
    }
  }

  lemma SettleCoherent(g: G, c: Ctx, n: nat)
    requires Coherent(g, c) && n < Size(g)
    ensures Coherent(Settle(g, n), Enter(c, n))
  {
  }

  lemma SettleQueued(g: G, c: Ctx, n: nat)
    requires Queued(g, c) && n < Size(g)
    ensures Queued(Settle(g, n), Enter(c, n))
  {
  }

  /** Every sink that is not itself being run has been told that `n` may have changed. */
  predicate Announced(g: G, c: Ctx, n: nat)
    requires Lengths(g) && n < Size(g)
  {
    forall k :: k in g.sinks[n] ==> g.sinks[n][k].sink in c.running || g.sinks[n][k].dirty != Clean
  }

  function WriteCache(g: G, n: nat, v: Value): G
    requires Lengths(g) && n < Size(g)
  {
    g.(cache := g.cache[n := Some(v)])
  }

  function Replaced(c: Ctx, n: nat): Ctx { c.(resolved := c.resolved + {n}) }

  lemma WriteCacheKeeps(g: G, c: Ctx, n: nat, v: Value)
    requires Inv(g, c) && n < Size(g) && g.kinds[n].MemoNode? && n in c.running && Announced(g, c, n)
    ensures Inv(WriteCache(g, n, v), Replaced(c, n))
  {
    var g' := WriteCache(g, n, v);
    forall b: nat | b < Size(g') ensures NodeOk(g', b) {
      assert NodeOk(g, b);
    }
    assert Kinds(g');
    SameLinksKeeps(g, g', c);
    assert Backward(g', Replaced(c, n)) by {
      forall s, k | 0 <= s < Size(g) && k in g'.sinks[s] ensures Owned(g', Replaced(c, n), s, k) {
        assert Owned(g', c, s, k);
      }
    }
    WriteCacheCoherent(g, c, n, v);
    WriteCacheQueued(g, c, n, v);
  }

  lemma WriteCacheCoherent(g: G, c: Ctx, n: nat, v: Value)
    requires Coherent(g, c) && Forward(g) && n < Size(g) && n in c.running && Announced(g, c, n)
    ensures Coherent(WriteCache(g, n, v), Replaced(c, n))
  {
    var g' := WriteCache(g, n, v);
    forall a, i | 0 <= a < Size(g) && a !in c.running && 0 <= i < |g'.sources[a]|
      ensures SeenAt(g', Replaced(c, n), a, i)
    {
      assert Linked(g, g.sources[a][i], a);
      assert SeenAt(g, c, a, i);
    }
  }

  lemma WriteCacheQueued(g: G, c: Ctx, n: nat, v: Value)
    requires Queued(g, c) && n < Size(g) && n in c.running
    ensures Queued(WriteCache(g, n, v), Replaced(c, n))
  {
  }

  /** `SinkBindings::update`: bindings that were only possibly dirty learn whether `n` changed. */
  function Resolved(b: Binding, isDirty: bool): Binding {
    if b.dirty == MaybeDirty then b.(dirty := FromIsDirty(isDirty)) else b
  }

  function ResolveAll(m: map<nat, Binding>, isDirty: bool): map<nat, Binding> {
    map k | k in m :: Resolved(m[k], isDirty)
  }

  function Resolve(g: G, n: nat, isDirty: bool): G
    requires Lengths(g) && n < Size(g)
  {
    g.(sinks := g.sinks[n := ResolveAll(g.sinks[n], isDirty)])
  }

  lemma ResolveKeeps(g: G, c: Ctx, n: nat, isDirty: bool)
    requires Inv(g, c) && n < Size(g) && n in c.running && g.dirty[n] == Clean && (n in c.resolved ==> isDirty)
    ensures Inv(Resolve(g, n, isDirty), c.(resolved := c.resolved - {n}))
    ensures forall k :: k in Resolve(g, n, isDirty).sinks[n] ==> Resolve(g, n, isDirty).sinks[n][k].dirty != MaybeDirty
  {
    ResolveShape(g, c, n, isDirty);
    ResolveCoherent(g, c, n, isDirty);
    ResolveQueued(g, c, n, isDirty);
    hide Shape, Coherent, Queued;
  }

  lemma ResolveShape(g: G, c: Ctx, n: nat, isDirty: bool)
    requires Shape(g, c) && n < Size(g)
    ensures Shape(Resolve(g, n, isDirty), c.(resolved := c.resolved - {n}))
  {
    var g' := Resolve(g, n, isDirty);
    var c' := c.(resolved := c.resolved - {n});
    assert g.sinks[n] == map[] ==> g'.sinks[n] == map[];
    forall b: nat | b < Size(g') ensures NodeOk(g', b) {
      assert NodeOk(g, b);
    }
    assert Kinds(g');
    SameLinksKeeps(g, g', c);
    assert Backward(g', c') by {
      forall s, k | 0 <= s < Size(g) && k in g'.sinks[s] ensures Owned(g', c', s, k) {
        assert Owned(g', c, s, k);
      }
    }
  }

  lemma ResolveCoherent(g: G, c: Ctx, n: nat, isDirty: bool)
    requires Coherent(g, c) && n < Size(g) && n in c.running && g.dirty[n] == Clean && (n in c.resolved ==> isDirty)
    ensures Coherent(Resolve(g, n, isDirty), c.(resolved := c.resolved - {n}))
  {
    var g' := Resolve(g, n, isDirty);
    var c' := c.(resolved := c.resolved - {n});
    forall s, k | 0 <= s < Size(g) && k in g'.sinks[s] ensures Marked(g', c', s, k) {
      assert Marked(g, c, s, k);
    }
    forall a, i | 0 <= a < Size(g) && a !in c.running && 0 <= i < |g'.sources[a]| ensures SeenAt(g', c', a, i) {
      assert SeenAt(g, c, a, i);
    }
  }

  lemma ResolveQueued(g: G, c: Ctx, n: nat, isDirty: bool)
    requires Queued(g, c) && n < Size(g) && n in c.running
    ensures Queued(Resolve(g, n, isDirty), c.(resolved := c.resolved - {n}))
  {
    var g' := Resolve(g, n, isDirty);
    assert forall m :: 0 <= m < Size(g) && m != n ==> g'.sinks[m] == g.sinks[m];
  }

  /** The run or check of `n` is over: all its sources are settled and its trace explains its cache. */
  ghost predicate Finished(g: G, n: nat)
    requires Lengths(g)
  {
    && Live(g, n) && !g.kinds[n].StateNode?
    && g.dirty[n] == Clean
    && SettledTo(g, n, |g.sources[n]|)
    && TracedAt(g, n)
    && (forall k :: k in g.sinks[n] ==> g.sinks[n][k].dirty != MaybeDirty)
    && (Unheard(g, n) ==> g.scheduled[n])
    && (g.kinds[n].EffectNode? ==> n !in g.pending)
  }

  lemma LeaveKeeps(g: G, c: Ctx, n: nat)
    requires Inv(g, c) && Finished(g, n) && n !in c.resolved && c.loose == {}
    ensures Inv(g, Leave(c, n))
  {
    assert c.resolved - {n} == c.resolved;
    assert Backward(g, Leave(c, n)) by {
      forall s, k | 0 <= s < Size(g) && k in g.sinks[s] ensures Owned(g, Leave(c, n), s, k) {
        assert Owned(g, c, s, k);
      }
    }
    LeaveCoherent(g, c, n);
  }

  lemma LeaveCoherent(g: G, c: Ctx, n: nat)
    requires Coherent(g, c) && Forward(g) && Finished(g, n) && n !in c.resolved
    requires forall s, k :: 0 <= s < Size(g) && k in g.sinks[s] ==> Owned(g, c, s, k)
    requires c.loose == {}
    ensures Coherent(g, Leave(c, n))
  {
    var c' := Leave(c, n);
    forall s, k | 0 <= s < Size(g) && k in g.sinks[s] ensures Marked(g, c', s, k) {
      assert Marked(g, c, s, k);
      if g.sinks[s][k].sink == n {
        assert Owned(g, c, s, k);
        var i :| 0 <= i < |g.sources[n]| && g.sources[n][i] == Source(s, k);
        assert Settled(g, n, i);
      }
    }
    forall a, i | 0 <= a < Size(g) && a !in c'.running && 0 <= i < |g.sources[a]| ensures SeenAt(g, c', a, i) {
      if a == n {
        assert Settled(g, n, i);
      } else {
        assert SeenAt(g, c, a, i);
      }
    }
  }

  /** `n` is being run and nothing below it is. */
  predicate Within(c: Ctx, n: nat) {
    && c.marking == {} && c.stale == {} && c.loose == {}
    && n in c.running
    && forall r :: r in c.running ==> n <= r
  }

  lemma LogKeeps(g: G, c: Ctx, log: seq<nat>)
    requires Inv(g, c)
    ensures Inv(g.(ran := log), c)
  {
    var g' := g.(ran := log);
    LogShape(g, c, log);
    assert Coherent(g', c);
    assert Queued(g', c);
  }

  lemma LogShape(g: G, c: Ctx, log: seq<nat>)
    requires Shape(g, c)
    ensures Shape(g.(ran := log), c)
  {
    var g' := g.(ran := log);
    forall b: nat | b < Size(g') ensures NodeOk(g', b) {
      assert NodeOk(g, b);
    }
    SameLinksKeeps(g, g', c);
  }

  lemma DirtyIsAnnounced(g: G, c: Ctx, n: nat)
    requires Shape(g, c) && Coherent(g, c) && n < Size(g) && g.dirty[n] != Clean && n !in c.marking
    ensures Announced(g, c, n)
  {
    forall k | k in g.sinks[n] ensures g.sinks[n][k].sink in c.running || g.sinks[n][k].dirty != Clean {
      assert Marked(g, c, n, k);
    }
  }

  lemma KeepReadable(g: G, c: Ctx, n: nat)
    requires Shape(g, c) && Live(g, n) && g.kinds[n].KeepNode?
    ensures g.kinds[n].signal in Readable(g, n)
  {
    assert ReadsOnly(CompOf(g.kinds[n]), Readable(g, n));
  }
}
