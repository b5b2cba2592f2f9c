// Deferred unbinding, discarding caches, dropping and creating nodes, as functions on the graph state.
module LifetimeSteps {
  import opened DirtyLattice
  import opened Options
  import opened Computation
  import opened GraphState
  import opened BindingSteps
  import opened EvaluationSteps
  import opened Evolution
  import opened MarkingSteps

  // ----- deferred unbinds -----

  function TakeUnbind(g: G): G
    requires g.unbinds != []
  {
    g.(unbinds := g.unbinds[1..])
  }

  lemma TakeUnbindShape(g: G, c: Ctx)
    requires Shape(g, c) && g.unbinds != [] && c.loose == {}
    ensures Shape(TakeUnbind(g), c.(loose := {g.unbinds[0]}))
  {
    var g' := TakeUnbind(g);
    var u := g.unbinds[0];
    var c' := c.(loose := {u});
    assert Orphan(g, u);
    assert NodeOk(g, g.sinks[u.node][u.key].sink);
    forall b: nat | b < Size(g') ensures NodeOk(g', b) {
      assert NodeOk(g, b);
    }
    assert Kinds(g');
    assert Forward(g') by {
      forall a, i | 0 <= a < Size(g) && 0 <= i < |g'.sources[a]| ensures Linked(g', g'.sources[a][i], a) {
        assert Linked(g, g.sources[a][i], a);
      }
    }
    assert Distinct(g');
    TakeUnbindBackward(g, c);
    assert Orphans(g') by {
      forall i | 0 <= i < |g'.unbinds| ensures Orphan(g', g'.unbinds[i]) {
        assert Orphan(g, g.unbinds[i + 1]);
      }
    }
    assert Stray(g', u);
  }

  lemma TakeUnbindBackward(g: G, c: Ctx)
    requires Lengths(g) && Backward(g, c) && g.unbinds != [] && c.loose == {}
    ensures Backward(TakeUnbind(g), c.(loose := {g.unbinds[0]}))
  {
    var g' := TakeUnbind(g);
    forall s, k | 0 <= s < Size(g) && k in g'.sinks[s] ensures Owned(g', c.(loose := {g.unbinds[0]}), s, k) {
      assert Owned(g, c, s, k);
      assert g.unbinds == [g.unbinds[0]] + g.unbinds[1..];
    }
  }

  lemma TakeUnbindQueues(g: G, c: Ctx)
    requires Coherent(g, c) && Queued(g, c) && g.unbinds != []
    ensures Coherent(TakeUnbind(g), c.(loose := {g.unbinds[0]}))
    ensures Queued(TakeUnbind(g), c.(loose := {g.unbinds[0]}))
  {
  }

  /** One deferred unbind: the entry leaves the queue and the source's table together. */
  lemma ApplyUnbindStep(g: G, c: Ctx)
    requires Inv(g, c) && g.unbinds != [] && c.loose == {}
    ensures Lengths(g) && g.unbinds[0].node < Size(g)
    ensures var g' := Unbind(TakeUnbind(g), g.unbinds[0]);
      Inv(g', c) && g'.sources == g.sources && g'.kinds == g.kinds && g'.vals == g.vals && g'.alive == g.alive
      && g'.notifys == g.notifys && |g'.unbinds| == |g.unbinds| - 1
  {
    TakeUnbindKeeps(g, c);
    hide Inv;
    var u := g.unbinds[0];
    var c' := c.(loose := {u});
    UnbindKeeps(TakeUnbind(g), c', u);
    assert c'.(loose := c'.loose - {u}) == c;
  }

  lemma TakeUnbindKeeps(g: G, c: Ctx)
    requires Inv(g, c) && g.unbinds != [] && c.loose == {}
    ensures Lengths(g) && g.unbinds[0].node < Size(g)
    ensures Inv(TakeUnbind(g), c.(loose := {g.unbinds[0]}))
  {
    assert Orphan(g, g.unbinds[0]);
    TakeUnbindShape(g, c);
    TakeUnbindQueues(g, c);
  }

  // ----- discarding -----

  /** `DiscardScheduledCell::reset_schedule` for the reaction popped from the discard queue. */
  function PopDiscard(g: G): G
    requires Lengths(g) && g.discards != [] && g.discards[|g.discards| - 1] < Size(g)
  {
    var m := g.discards[|g.discards| - 1];
    g.(discards := g.discards[..|g.discards| - 1], scheduled := g.scheduled[m := false])
  }

  lemma PopDiscardShape(g: G, c: Ctx, m: nat)
    requires Shape(g, c) && g.discards != [] && m == g.discards[|g.discards| - 1] && m < Size(g)
    ensures Shape(PopDiscard(g), c)
  {
    var g' := PopDiscard(g);
    forall b: nat | b < Size(g') ensures NodeOk(g', b) {
      assert NodeOk(g, b);
    }
    SameLinksKeeps(g, g', c);
  }

  lemma PopDiscardQueued(g: G, c: Ctx, m: nat)
    requires Queued(g, c) && g.discards != [] && m == g.discards[|g.discards| - 1] && m < Size(g)
    ensures Queued(PopDiscard(g), Enter(c, m))
  {
    assert g.discards == g.discards[..|g.discards| - 1] + [m];
  }

  lemma EnterCoherent(g: G, c: Ctx, m: nat)
    requires Coherent(g, c)
    ensures Coherent(g, Enter(c, m))
  {
    forall s, k | 0 <= s < Size(g) && k in g.sinks[s] ensures Marked(g, Enter(c, m), s, k) {
      assert Marked(g, c, s, k);
    }
  }

  lemma PopDiscardKeeps(g: G, c: Ctx)
    requires Inv(g, c) && g.discards != []
    ensures Lengths(g) && g.discards[|g.discards| - 1] < Size(g)
    ensures var m := g.discards[|g.discards| - 1];
      Inv(PopDiscard(g), Enter(c, m)) && Discardable(g, m)
  {
    hide Shape, Coherent, Queued;
    NextDiscard(g, c);
    var m := g.discards[|g.discards| - 1];
    PopDiscardShape(g, c, m);
    EnterShape(PopDiscard(g), c, m);
    PopDiscardCoherent(g, c);
    EnterCoherent(PopDiscard(g), c, m);
    PopDiscardQueued(g, c, m);
  }

  lemma NextDiscard(g: G, c: Ctx)
    requires Queued(g, c) && g.discards != []
    ensures Lengths(g) && g.discards[|g.discards| - 1] < Size(g) && Discardable(g, g.discards[|g.discards| - 1])
  {
  }

  lemma EnterShape(g: G, c: Ctx, m: nat)
    requires Shape(g, c)
    ensures Shape(g, Enter(c, m))
  {
    CtxLinks(g, c, Enter(c, m));
  }

  lemma PopDiscardCoherent(g: G, c: Ctx)
    requires Coherent(g, c) && g.discards != [] && g.discards[|g.discards| - 1] < Size(g)
    ensures Coherent(PopDiscard(g), c)
  {
  }

  /** A node that is listened to again is left alone. */
  lemma PopDiscardHeard(g: G, c: Ctx)
    requires Inv(g, c) && g.discards != [] && Lengths(g) && g.discards[|g.discards| - 1] < Size(g)
    requires g.sinks[g.discards[|g.discards| - 1]] != map[]
    ensures Inv(PopDiscard(g), c)
  {
    hide Shape, Coherent, Queued;
    var m := g.discards[|g.discards| - 1];
    PopDiscardShape(g, c, m);
    PopDiscardHeardQueued(g, c, m);
    PopDiscardCoherent(g, c);
  }

  lemma PopDiscardHeardQueued(g: G, c: Ctx, m: nat)
    requires Queued(g, c) && g.discards != [] && m == g.discards[|g.discards| - 1] && m < Size(g) && g.sinks[m] != map[]
    ensures Queued(PopDiscard(g), c)
  {
    assert g.discards == g.discards[..|g.discards| - 1] + [m];
  }

  function ClearCache(g: G, m: nat): G
    requires Lengths(g) && m < Size(g)
  {
    g.(cache := g.cache[m := None])
  }

  lemma ClearCacheKeeps(g: G, c: Ctx, m: nat)
    requires Inv(g, c) && m < Size(g) && m in c.running && g.sinks[m] == map[]
    ensures Inv(ClearCache(g, m), c)
  {
    var g' := ClearCache(g, m);
    forall b: nat | b < Size(g') ensures NodeOk(g', b) {
      assert NodeOk(g, b);
    }
    assert Kinds(g');
    SameLinksKeeps(g, g', c);
    ClearCacheCoherent(g, c, m);
    ClearCacheQueued(g, c, m);
  }

  lemma ClearCacheCoherent(g: G, c: Ctx, m: nat)
    requires Coherent(g, c) && m < Size(g) && m in c.running && g.sinks[m] == map[]
    ensures Coherent(ClearCache(g, m), c)
  {
    var g' := ClearCache(g, m);
    forall a, i | 0 <= a < Size(g) && a !in c.running && 0 <= i < |g'.sources[a]| ensures SeenAt(g', c, a, i) {
      assert SeenAt(g, c, a, i);
    }
  }

  lemma ClearCacheQueued(g: G, c: Ctx, m: nat)
    requires Queued(g, c) && m < Size(g) && m in c.running
    ensures Queued(ClearCache(g, m), c)
  {
  }

  function MakeDirty(g: G, m: nat): G
    requires Lengths(g) && m < Size(g)
  {
    g.(dirty := g.dirty[m := Dirty])
  }

  /** The end of `SourceBinder::clear`: without sources and cache the node is simply Dirty. */
  lemma ClearedKeeps(g: G, c: Ctx, m: nat)
    requires Inv(g, Enter(c, m)) && c.loose == {} && m !in c.running && m !in c.resolved
    requires m < Size(g) && g.kinds[m].MemoNode? && g.alive[m]
    requires g.sources[m] == [] && g.sinks[m] == map[] && g.cache[m] == None
    ensures Inv(MakeDirty(g, m), c)
  {
    var g' := MakeDirty(g, m);
    var c1 := Enter(c, m);
    forall b: nat | b < Size(g') ensures NodeOk(g', b) {
      assert NodeOk(g, b);
    }
    assert Kinds(g');
    SameLinksKeeps(g, g', c1);
    CtxLinks(g', c1, c);
    ClearedCoherent(g, c, m);
    ClearedQueued(g, c, m);
  }

  lemma ClearedCoherent(g: G, c: Ctx, m: nat)
    requires Coherent(g, Enter(c, m)) && Backward(g, Enter(c, m)) && c.loose == {} && m !in c.running
    requires m < Size(g) && g.kinds[m].MemoNode? && g.alive[m]
    requires g.sources[m] == [] && g.sinks[m] == map[]
    ensures Coherent(MakeDirty(g, m), c)
  {
    var g' := MakeDirty(g, m);
    forall s, k | 0 <= s < Size(g) && k in g'.sinks[s] ensures Marked(g', c, s, k) {
      assert Marked(g, Enter(c, m), s, k) && Owned(g, Enter(c, m), s, k);
    }
    forall a, i | 0 <= a < Size(g) && a !in c.running && 0 <= i < |g'.sources[a]| ensures SeenAt(g', c, a, i) {
      assert SeenAt(g, Enter(c, m), a, i);
    }
  }

  lemma ClearedQueued(g: G, c: Ctx, m: nat)
    requires Queued(g, Enter(c, m)) && m !in c.running
    requires m < Size(g) && g.kinds[m].MemoNode? && g.sources[m] == [] && g.cache[m] == None
    ensures Queued(MakeDirty(g, m), c)
  {
  }

  // ----- dropping a node -----

  /** What holds of a node that is being dropped: no reference to it is left. */
  ghost predicate Unreferenced(g: G, a: nat)
    requires Lengths(g)
  {
    && Live(g, a)
    && g.sinks[a] == map[]
    && a !in g.discards
    && forall b: nat :: b < Size(g) && b != a && g.alive[b] && !g.kinds[b].StateNode? ==>
         ReadsOnly(CompOf(g.kinds[b]), Readable(g, b) - {a})
  }

  /** Dropping a node hands its dependencies to the deferred unbind queue (`Drop for SourceBindings`). */
  function DropNode(g: G, a: nat): G
    requires Lengths(g) && a < Size(g)
  {
    g.(alive := g.alive[a := false], unbinds := g.unbinds + g.sources[a],
       sources := g.sources[a := []], seen := g.seen[a := []])
  }

  lemma DropKinds(g: G, c: Ctx, a: nat)
    requires Shape(g, c) && Unreferenced(g, a)
    ensures Kinds(DropNode(g, a))
  {
    var g' := DropNode(g, a);
    forall b: nat | b < Size(g') ensures NodeOk(g', b) {
      assert NodeOk(g, b);
    }
    forall b: nat | b < Size(g') && g'.alive[b] && !g'.kinds[b].StateNode?
      ensures ReadsOnly(CompOf(g'.kinds[b]), Readable(g', b))
    {
      assert Readable(g', b) == Readable(g, b) - {a};
    }
  }

  lemma DropForward(g: G, c: Ctx, a: nat)
    requires Lengths(g) && Forward(g) && Distinct(g) && a < Size(g)
    ensures Forward(DropNode(g, a)) && Distinct(DropNode(g, a))
  {
    var g' := DropNode(g, a);
    forall b, i | 0 <= b < Size(g) && 0 <= i < |g'.sources[b]| ensures Linked(g', g'.sources[b][i], b) {
      assert Linked(g, g.sources[b][i], b);
    }
  }

  lemma DropBackward(g: G, c: Ctx, a: nat)
    requires Lengths(g) && Backward(g, c) && c.loose == {} && a < Size(g) && g.alive[a]
    ensures Backward(DropNode(g, a), c)
  {
    var g' := DropNode(g, a);
    forall s, k | 0 <= s < Size(g) && k in g'.sinks[s] ensures Owned(g', c, s, k) {
      assert Owned(g, c, s, k);
    }
  }

  lemma DropOrphans(g: G, a: nat)
    requires Lengths(g) && Forward(g) && Distinct(g) && Orphans(g) && Live(g, a)
    ensures Orphans(DropNode(g, a))
  {
    var g' := DropNode(g, a);
    var n := |g.unbinds|;
    forall i | 0 <= i < |g'.unbinds| ensures Orphan(g', g'.unbinds[i]) {
      if i < n {
        assert Orphan(g, g.unbinds[i]);
      } else {
        assert Linked(g, g.sources[a][i - n], a);
      }
    }
    forall i, j | 0 <= i < j < |g'.unbinds| ensures g'.unbinds[i] != g'.unbinds[j] {
      if i < n <= j {
        assert Orphan(g, g.unbinds[i]) && Linked(g, g.sources[a][j - n], a);
      }
    }
  }

  lemma DropCoherent(g: G, c: Ctx, a: nat)
    requires Coherent(g, c) && a < Size(g)
    ensures Coherent(DropNode(g, a), c)
  {
    var g' := DropNode(g, a);
    forall s, k | 0 <= s < Size(g) && k in g'.sinks[s] ensures Marked(g', c, s, k) {
      assert Marked(g, c, s, k);
    }
    forall b, i | 0 <= b < Size(g) && b !in c.running && 0 <= i < |g'.sources[b]| ensures SeenAt(g', c, b, i) {
      assert SeenAt(g, c, b, i);
    }
  }

  lemma DropQueued(g: G, c: Ctx, a: nat)
    requires Queued(g, c) && a < Size(g) && a !in g.discards
    ensures Queued(DropNode(g, a), c)
  {
    var g' := DropNode(g, a);
    assert forall m :: 0 <= m < Size(g) && m != a ==> g'.sources[m] == g.sources[m];
  }

  lemma DropKeeps(g: G, c: Ctx, a: nat)
    requires Inv(g, c) && c.loose == {} && Unreferenced(g, a)
    ensures Inv(DropNode(g, a), c)
  {
    DropKinds(g, c, a);
    DropForward(g, c, a);
    DropBackward(g, c, a);
    DropOrphans(g, a);
    DropCoherent(g, c, a);
    DropQueued(g, c, a);
  }

  // ----- creating a node -----

  /** A new node may read the live nodes of the table. */
  ghost predicate Addable(g: G, kind: Kind)
    requires Lengths(g)
  {
    !kind.StateNode? ==> ReadsOnly(CompOf(kind), Readable(g, Size(g)))
  }

  function AddNode(g: G, kind: Kind, v: Value): G {
    g.(kinds := g.kinds + [kind],
       vals := if kind.StateNode? then g.vals[|g.kinds| := v] else g.vals,
       alive := g.alive + [true],
       dirty := g.dirty + [if kind.StateNode? then Clean else Dirty],
       cache := g.cache + [None],
       sources := g.sources + [[]],
       sinks := g.sinks + [map[]],
       scheduled := g.scheduled + [false],
       seen := g.seen + [[]],
       pending := if kind.EffectNode? then g.pending + [|g.kinds|] else g.pending)
  }

  lemma AddKinds(g: G, c: Ctx, kind: Kind, v: Value)
    requires Shape(g, c) && Addable(g, kind)
    ensures Lengths(AddNode(g, kind, v)) && Kinds(AddNode(g, kind, v))
  {
    var g' := AddNode(g, kind, v);
    if !kind.StateNode? {
      ReadsOnlyMono(CompOf(kind), Readable(g, Size(g)), Below(g.kinds, |g.kinds|));
    }
    ProgramExtends(g.kinds, kind);
    forall b: nat | b < Size(g') ensures NodeOk(g', b) {
      assert b < Size(g) ==> NodeOk(g, b);
    }
    forall b: nat | b < Size(g') && g'.alive[b] && !g'.kinds[b].StateNode?
      ensures ReadsOnly(CompOf(g'.kinds[b]), Readable(g', b))
    {
      assert Readable(g', b) == Readable(g, b);
    }
  }

  lemma AddLinks(g: G, c: Ctx, kind: Kind, v: Value)
    requires Lengths(g) && Links(g, c) && Lengths(AddNode(g, kind, v))
    ensures Links(AddNode(g, kind, v), c)
  {
    var g' := AddNode(g, kind, v);
    forall a, i | 0 <= a < Size(g') && 0 <= i < |g'.sources[a]| ensures Linked(g', g'.sources[a][i], a) {
      assert Linked(g, g.sources[a][i], a);
    }
    forall s, k | 0 <= s < Size(g') && k in g'.sinks[s] ensures Owned(g', c, s, k) {
      assert Owned(g, c, s, k);
    }
    forall i | 0 <= i < |g'.unbinds| ensures Orphan(g', g'.unbinds[i]) {
      assert Orphan(g, g.unbinds[i]);
    }
    forall u | u in c.loose ensures Stray(g', u) {
      assert Stray(g, u);
    }
  }

  lemma AddTraced(g: G, c: Ctx, kind: Kind, v: Value)
    requires Coherent(g, c) && Lengths(AddNode(g, kind, v))
    ensures Traced(AddNode(g, kind, v), c)
  {
    var g' := AddNode(g, kind, v);
    forall a: nat | a < Size(g') && g'.alive[a] && !g'.kinds[a].StateNode? && a !in c.running && g'.dirty[a] != Dirty
      ensures TracedAt(g', a)
    {
      assert TracedAt(g, a);
      AdvanceExtends(g.kinds, kind, CompOf(g.kinds[a]), g.sources[a], g.seen[a], |g.sources[a]|);
    }
  }

  lemma AddCoherent(g: G, c: Ctx, kind: Kind, v: Value)
    requires Shape(g, c) && Coherent(g, c) && c.loose == {} && Lengths(AddNode(g, kind, v))
    ensures Coherent(AddNode(g, kind, v), c)
  {
    var g' := AddNode(g, kind, v);
    AddTraced(g, c, kind, v);
    forall s, k | 0 <= s < Size(g') && k in g'.sinks[s] ensures Marked(g', c, s, k) {
      assert Marked(g, c, s, k) && Owned(g, c, s, k);
    }
    forall a, i | 0 <= a < Size(g') && a !in c.running && 0 <= i < |g'.sources[a]| ensures SeenAt(g', c, a, i) {
      assert SeenAt(g, c, a, i);
      assert Linked(g, g.sources[a][i], a);
    }
  }

  lemma AddQueued(g: G, c: Ctx, kind: Kind, v: Value)
    requires Queued(g, c) && Lengths(AddNode(g, kind, v))
    ensures Queued(AddNode(g, kind, v), c)
  {
    AddDiscards(g, c, kind, v);
    AddEffects(g, c, kind, v);
    hide Discards, Effects, Lengths;
  }

  lemma AddDiscards(g: G, c: Ctx, kind: Kind, v: Value)
    requires Lengths(g) && Discards(g, c) && Lengths(AddNode(g, kind, v))
    ensures Discards(AddNode(g, kind, v), c)
  {
    var g' := AddNode(g, kind, v);
    forall m: nat | m < Size(g') ensures m < Size(g) ==> SameRow(g, g', m) {
    }
    forall m: nat | m < Size(g') && m !in c.running && Unheard(g', m) && Holds(g', m) ensures g'.scheduled[m] {
      assert m < Size(g);
    }
  }

  predicate SameRow(g: G, g': G, m: nat)
    requires Lengths(g) && Lengths(g') && m < Size(g) && m < Size(g')
  {
    && g'.kinds[m] == g.kinds[m] && g'.alive[m] == g.alive[m] && g'.sinks[m] == g.sinks[m]
    && g'.sources[m] == g.sources[m] && g'.cache[m] == g.cache[m] && g'.scheduled[m] == g.scheduled[m]
  }

  lemma AddEffects(g: G, c: Ctx, kind: Kind, v: Value)
    requires Lengths(g) && Effects(g, c) && Lengths(AddNode(g, kind, v))
    ensures Effects(AddNode(g, kind, v), c)
  {
    var g' := AddNode(g, kind, v);
    assert forall e :: e in g'.pending <==> e in g.pending || (kind.EffectNode? && e == Size(g));
  }

  lemma AddKeeps(g: G, c: Ctx, kind: Kind, v: Value)
    requires Inv(g, c) && c.loose == {} && Addable(g, kind)
    ensures Inv(AddNode(g, kind, v), c)
  {
    AddKinds(g, c, kind, v);
    AddLinks(g, c, kind, v);
    AddCoherent(g, c, kind, v);
    AddQueued(g, c, kind, v);
  }
}
