// Binding and unbinding dependencies, as functions on the graph state, and the lemmas that each
// step keeps the invariant (`SourceBindings`, `SinkBindings` and `Sink` in src/core.rs).
module BindingSteps {
  import opened DirtyLattice
  import opened Options
  import opened Computation
  import opened GraphState

  // ----- binding and unbinding -----

  function RemoveBinding(g: G, src: Source): G
    requires Lengths(g) && src.node < Size(g)
  {
    g.(sinks := g.sinks[src.node := g.sinks[src.node] - {src.key}])
  }

  /** `try_schedule_discard`: schedule a memo that nobody listens to, unless it is scheduled. */
  function TrySchedule(g: G, m: nat): G
    requires Lengths(g) && m < Size(g)
  {
    if Unheard(g, m) && !g.scheduled[m] then
      g.(scheduled := g.scheduled[m := true], discards := g.discards + [m])
    else g
  }

  function Unbind(g: G, src: Source): G
    requires Lengths(g) && src.node < Size(g)
  {
    TrySchedule(RemoveBinding(g, src), src.node)
  }

  function RemoveAt<T>(s: seq<T>, i: nat): seq<T>
    requires i < |s|
  {
    s[..i] + s[i + 1..]
  }

  /** Take source position `i` of `a` out of its list. */
  function TakeOut(g: G, a: nat, i: nat): G
    requires Lengths(g) && a < Size(g) && i < |g.sources[a]|
  {
    g.(sources := g.sources[a := RemoveAt(g.sources[a], i)], seen := g.seen[a := RemoveAt(g.seen[a], i)])
  }

  lemma TakeOutForward(g: G, a: nat, i: nat)
    requires Lengths(g) && Forward(g) && Distinct(g) && a < Size(g) && i < |g.sources[a]|
    ensures Forward(TakeOut(g, a, i)) && Distinct(TakeOut(g, a, i))
  {
  }

  lemma TakeOutBackward(g: G, c: Ctx, a: nat, i: nat)
    requires Lengths(g) && Backward(g, c) && a < Size(g) && i < |g.sources[a]|
    ensures Backward(TakeOut(g, a, i), c.(loose := c.loose + {g.sources[a][i]}))
  {
  }

  lemma TakeOutStrays(g: G, c: Ctx, a: nat, i: nat)
    requires Lengths(g) && Links(g, c) && a < Size(g) && i < |g.sources[a]| && g.alive[a]
    ensures Orphans(TakeOut(g, a, i))
    ensures Strays(TakeOut(g, a, i), c.(loose := c.loose + {g.sources[a][i]}))
  {
    var g' := TakeOut(g, a, i);
    var src := g.sources[a][i];
    assert Linked(g, src, a);
    forall u | u in c.loose + {src} ensures Stray(g', u) {
      assert u == src || Stray(g, u);
    }
  }

  lemma TakeOutShape(g: G, c: Ctx, a: nat, i: nat)
    requires Shape(g, c) && a < Size(g) && i < |g.sources[a]|
    ensures Shape(TakeOut(g, a, i), c.(loose := c.loose + {g.sources[a][i]}))
  {
    var g' := TakeOut(g, a, i);
    forall b: nat | b < Size(g') ensures NodeOk(g', b) {
      assert NodeOk(g, b);
    }
    assert Kinds(g');
    assert NodeOk(g, a);
    TakeOutForward(g, a, i);
    TakeOutBackward(g, c, a, i);
    TakeOutStrays(g, c, a, i);
  }

  lemma TakeOutQueues(g: G, c: Ctx, a: nat, i: nat)
    requires Coherent(g, c) && Queued(g, c) && a < Size(g) && a in c.running && i < |g.sources[a]|
    ensures Coherent(TakeOut(g, a, i), c)
    ensures Queued(TakeOut(g, a, i), c)
  {
  }

  lemma TakeOutKeeps(g: G, c: Ctx, a: nat, i: nat)
    requires Inv(g, c) && a < Size(g) && a in c.running && i < |g.sources[a]|
    ensures Inv(TakeOut(g, a, i), c.(loose := c.loose + {g.sources[a][i]}))
  {
    TakeOutShape(g, c, a, i);
    TakeOutQueues(g, c, a, i);
  }

  lemma RemoveForward(g: G, src: Source)
    requires Lengths(g) && Forward(g) && Distinct(g) && src.node < Size(g)
    requires forall a :: 0 <= a < Size(g) ==> src !in g.sources[a]
    ensures Forward(RemoveBinding(g, src)) && Distinct(RemoveBinding(g, src))
  {
  }

  lemma RemoveBackward(g: G, c: Ctx, src: Source)
    requires Lengths(g) && Backward(g, c) && src in c.loose && Stray(g, src)
    ensures Backward(RemoveBinding(g, src), c.(loose := c.loose - {src}))
  {
  }

  lemma RemoveStrays(g: G, c: Ctx, src: Source)
    requires Lengths(g) && Orphans(g) && Strays(g, c) && src in c.loose
    ensures Orphans(RemoveBinding(g, src))
    ensures Strays(RemoveBinding(g, src), c.(loose := c.loose - {src}))
  {
    assert Stray(g, src);
  }

  lemma RemoveShape(g: G, c: Ctx, src: Source)
    requires Shape(g, c) && src in c.loose
    ensures Shape(RemoveBinding(g, src), c.(loose := c.loose - {src}))
  {
    var g' := RemoveBinding(g, src);
    assert Stray(g, src);
    forall b: nat | b < Size(g') ensures NodeOk(g', b) {
      assert NodeOk(g, b);
    }
    assert Kinds(g');
    RemoveForward(g, src);
    RemoveBackward(g, c, src);
    RemoveStrays(g, c, src);
  }

  lemma RemoveCoherent(g: G, c: Ctx, src: Source)
    requires Coherent(g, c) && src.node < Size(g)
    ensures Coherent(RemoveBinding(g, src), c)
  {
  }

  lemma UnbindQueued(g: G, c: Ctx, src: Source)
    requires Queued(g, c) && src.node < Size(g)
    ensures Queued(Unbind(g, src), c)
  {
  }

  lemma TryScheduleShape(g: G, c: Ctx, m: nat)
    requires Shape(g, c) && m < Size(g)
    ensures Shape(TrySchedule(g, m), c)
  {
    var g' := TrySchedule(g, m);
    forall b: nat | b < Size(g') ensures NodeOk(g', b) {
      assert NodeOk(g, b);
    }
  }

  lemma TryScheduleCoherent(g: G, c: Ctx, m: nat)
    requires Coherent(g, c) && m < Size(g)
    ensures Coherent(TrySchedule(g, m), c)
  {
  }

  lemma TryScheduleQueued(g: G, c: Ctx, m: nat)
    requires Queued(g, c) && m < Size(g)
    ensures Queued(TrySchedule(g, m), c)
  {
  }

  lemma TryScheduleKeeps(g: G, c: Ctx, m: nat)
    requires Inv(g, c) && m < Size(g)
    ensures Inv(TrySchedule(g, m), c)
  {
    TryScheduleShape(g, c, m);
    TryScheduleCoherent(g, c, m);
    TryScheduleQueued(g, c, m);
  }

  lemma UnbindKeeps(g: G, c: Ctx, src: Source)
    requires Inv(g, c) && src in c.loose
    ensures Inv(Unbind(g, src), c.(loose := c.loose - {src}))
  {
    var c' := c.(loose := c.loose - {src});
    assert Stray(g, src);
    RemoveShape(g, c, src);
    RemoveCoherent(g, c, src);
    TryScheduleShape(RemoveBinding(g, src), c', src.node);
    TryScheduleCoherent(RemoveBinding(g, src), c', src.node);
    UnbindQueued(g, c', src);
  }

  // ----- frames -----

  /** The same dependencies and the same owners of bindings; marks may differ. */
  predicate SameLinks(g: G, g': G)
    requires Lengths(g) && Lengths(g')
  {
    && g'.kinds == g.kinds
    && g'.alive == g.alive
    && g'.sources == g.sources
    && g'.unbinds == g.unbinds
    && forall s :: 0 <= s < Size(g) ==> SameOwners(g.sinks[s], g'.sinks[s])
  }

  predicate SameOwners(m: map<nat, Binding>, m': map<nat, Binding>) {
    && m'.Keys == m.Keys
    && forall k :: k in m ==> m'[k].sink == m[k].sink
  }

  lemma SameLinksKeeps(g: G, g': G, c: Ctx)
    requires Lengths(g) && Lengths(g') && SameLinks(g, g') && Links(g, c)
    ensures Links(g', c)
  {
    assert Forward(g') by {
      forall a, i | 0 <= a < Size(g) && 0 <= i < |g'.sources[a]| ensures Linked(g', g'.sources[a][i], a) {
        assert Linked(g, g.sources[a][i], a);
      }
    }
    forall s, k | 0 <= s < Size(g) && k in g'.sinks[s] ensures Owned(g', c, s, k) {
      assert Owned(g, c, s, k);
    }
    forall i | 0 <= i < |g.unbinds| ensures Orphan(g', g.unbinds[i]) {
      assert Orphan(g, g.unbinds[i]);
    }
    forall u | u in c.loose ensures Stray(g', u) {
      assert Stray(g, u);
    }
  }

  // ----- recording a dependency during a run -----

  function SetEntry(m: map<nat, Binding>, k: nat, b: Binding): map<nat, Binding> {
    m[k := b]
  }

  /** `SinkBindings::bind`, first half: reuse the binding at source position `i` of `a`. */
  function Reuse(g: G, a: nat, i: nat, v: Value): G
    requires Lengths(g) && a < Size(g) && i < |g.sources[a]| && Linked(g, g.sources[a][i], a)
  {
    var src := g.sources[a][i];
    g.(sinks := g.sinks[src.node := SetEntry(g.sinks[src.node], src.key, Binding(a, Clean))],
       seen := g.seen[a := g.seen[a][i := v]])
  }

  lemma ReuseKeeps(g: G, c: Ctx, a: nat, i: nat, v: Value)
    requires Inv(g, c) && a < Size(g) && a in c.running && i < |g.sources[a]| && Linked(g, g.sources[a][i], a)
    ensures Inv(Reuse(g, a, i, v), c)
  {
    var g' := Reuse(g, a, i, v);
    SameLinksKeeps(g, g', c);
    forall b: nat | b < Size(g') ensures NodeOk(g', b) {
      assert NodeOk(g, b);
    }
    assert Kinds(g');
    ReuseCoherent(g, c, a, i, v);
    ReuseQueued(g, c, a, i, v);
  }

  lemma ReuseCoherent(g: G, c: Ctx, a: nat, i: nat, v: Value)
    requires Coherent(g, c) && Forward(g) && a < Size(g) && a in c.running && i < |g.sources[a]|
    requires Linked(g, g.sources[a][i], a)
    ensures Coherent(Reuse(g, a, i, v), c)
  {
  }

  lemma ReuseQueued(g: G, c: Ctx, a: nat, i: nat, v: Value)
    requires Queued(g, c) && a < Size(g) && i < |g.sources[a]| && Linked(g, g.sources[a][i], a)
    ensures Queued(Reuse(g, a, i, v), c)
  {
  }

  /** `SinkBindings::bind`, second half: a new entry under a key that the table does not use. */
  function Insert(g: G, a: nat, src: Source): G
    requires Lengths(g) && src.node < Size(g)
  {
    g.(sinks := g.sinks[src.node := SetEntry(g.sinks[src.node], src.key, Binding(a, Clean))])
  }

  predicate Insertable(g: G, a: nat, src: Source)
    requires Lengths(g)
  {
    && src.node < a < Size(g)
    && g.alive[a] && g.alive[src.node]
    && (g.kinds[src.node].StateNode? || g.kinds[src.node].MemoNode?)
    && src.key !in g.sinks[src.node]
  }

  lemma InsertKeeps(g: G, c: Ctx, a: nat, src: Source)
    requires Inv(g, c) && Insertable(g, a, src) && a in c.running
    ensures Inv(Insert(g, a, src), c.(loose := c.loose + {src}))
  {
    var g' := Insert(g, a, src);
    var c' := c.(loose := c.loose + {src});
    forall b: nat | b < Size(g') ensures NodeOk(g', b) {
      assert NodeOk(g, b);
    }
    assert Kinds(g');
    InsertLinks(g, c, a, src);
    InsertStrays(g, c, a, src);
    InsertCoherent(g, c, a, src);
    InsertQueued(g, c, a, src);
  }

  lemma InsertLinks(g: G, c: Ctx, a: nat, src: Source)
    requires Lengths(g) && Forward(g) && Distinct(g) && Backward(g, c) && Orphans(g) && Insertable(g, a, src)
    ensures Forward(Insert(g, a, src)) && Distinct(Insert(g, a, src)) && Orphans(Insert(g, a, src))
    ensures Backward(Insert(g, a, src), c.(loose := c.loose + {src}))
  {
    var g' := Insert(g, a, src);
    forall s, k | 0 <= s < Size(g) && k in g'.sinks[s] ensures Owned(g', c.(loose := c.loose + {src}), s, k) {
      assert Source(s, k) == src || Owned(g, c, s, k);
    }
  }

  lemma InsertStrays(g: G, c: Ctx, a: nat, src: Source)
    requires Lengths(g) && Forward(g) && Orphans(g) && Strays(g, c) && Insertable(g, a, src)
    ensures Strays(Insert(g, a, src), c.(loose := c.loose + {src}))
  {
    var g' := Insert(g, a, src);
    forall u | u in c.loose + {src} ensures Stray(g', u) {
      assert u == src || Stray(g, u);
    }
  }

  lemma InsertCoherent(g: G, c: Ctx, a: nat, src: Source)
    requires Coherent(g, c) && Forward(g) && Insertable(g, a, src) && a in c.running
    ensures Coherent(Insert(g, a, src), c)
  {
  }

  lemma InsertQueued(g: G, c: Ctx, a: nat, src: Source)
    requires Queued(g, c) && Insertable(g, a, src)
    ensures Queued(Insert(g, a, src), c)
  {
  }

  /** `Sink::push`: put a loose dependency at position `i`; the one it replaces becomes loose. */
  function PutIn(g: G, a: nat, i: nat, src: Source, v: Value): G
    requires Lengths(g) && a < Size(g) && i <= |g.sources[a]|
  {
    if i < |g.sources[a]| then
      g.(sources := g.sources[a := g.sources[a][i := src]], seen := g.seen[a := g.seen[a][i := v]])
    else
      g.(sources := g.sources[a := g.sources[a] + [src]], seen := g.seen[a := g.seen[a] + [v]])
  }

  function PutInCtx(g: G, c: Ctx, a: nat, i: nat, src: Source): Ctx
    requires Lengths(g) && a < Size(g) && i <= |g.sources[a]|
  {
    c.(loose := c.loose - {src} + if i < |g.sources[a]| then {g.sources[a][i]} else {})
  }

  lemma PutInKeeps(g: G, c: Ctx, a: nat, i: nat, src: Source, v: Value)
    requires Inv(g, c) && a < Size(g) && g.alive[a] && !g.kinds[a].StateNode? && a in c.running && i <= |g.sources[a]|
    requires src in c.loose && src.node < a && g.sinks[src.node][src.key].sink == a
    ensures Inv(PutIn(g, a, i, src, v), PutInCtx(g, c, a, i, src))
  {
    var g' := PutIn(g, a, i, src, v);
    var c' := PutInCtx(g, c, a, i, src);
    assert Stray(g, src);
    forall b: nat | b < Size(g') ensures NodeOk(g', b) {
      assert NodeOk(g, b);
    }
    assert Kinds(g');
    PutInForward(g, a, i, src, v);
    PutInBackward(g, c, a, i, src, v);
    PutInStrays(g, c, a, i, src, v);
    PutInQueues(g, c, a, i, src, v);
  }

  lemma PutInForward(g: G, a: nat, i: nat, src: Source, v: Value)
    requires Lengths(g) && Forward(g) && Distinct(g) && a < Size(g) && i <= |g.sources[a]|
    requires Stray(g, src) && src.node < a && g.sinks[src.node][src.key].sink == a
    ensures Forward(PutIn(g, a, i, src, v)) && Distinct(PutIn(g, a, i, src, v))
  {
  }

  lemma PutInBackward(g: G, c: Ctx, a: nat, i: nat, src: Source, v: Value)
    requires Lengths(g) && Backward(g, c) && a < Size(g) && i <= |g.sources[a]| && g.alive[a]
    requires Stray(g, src) && g.sinks[src.node][src.key].sink == a
    ensures Backward(PutIn(g, a, i, src, v), PutInCtx(g, c, a, i, src))
  {
    var g' := PutIn(g, a, i, src, v);
    var c' := PutInCtx(g, c, a, i, src);
    forall s, k | 0 <= s < Size(g) && k in g'.sinks[s] ensures Owned(g', c', s, k) {
      assert Owned(g, c, s, k);
      if Source(s, k) == src {
        assert g'.sources[a][i] == src;
      } else if Source(s, k) in g.sources[a] && g.sinks[s][k].sink == a {
        var j :| 0 <= j < |g.sources[a]| && g.sources[a][j] == Source(s, k);
        assert j != i ==> g'.sources[a][j] == Source(s, k);
      }
    }
  }

  lemma PutInStrays(g: G, c: Ctx, a: nat, i: nat, src: Source, v: Value)
    requires Lengths(g) && Forward(g) && Distinct(g) && Orphans(g) && Strays(g, c)
    requires a < Size(g) && i <= |g.sources[a]| && g.alive[a] && Stray(g, src)
    ensures Orphans(PutIn(g, a, i, src, v))
    ensures Strays(PutIn(g, a, i, src, v), PutInCtx(g, c, a, i, src))
  {
    var g' := PutIn(g, a, i, src, v);
    var c' := PutInCtx(g, c, a, i, src);
    forall u | u in c'.loose ensures Stray(g', u) {
      if i < |g.sources[a]| && u == g.sources[a][i] {
        assert Linked(g, u, a);
      } else {
        assert Stray(g, u);
      }
    }
  }

  lemma PutInQueues(g: G, c: Ctx, a: nat, i: nat, src: Source, v: Value)
    requires Lengths(g) && Coherent(g, c) && Queued(g, c) && a < Size(g) && a in c.running && i <= |g.sources[a]|
    ensures Coherent(PutIn(g, a, i, src, v), PutInCtx(g, c, a, i, src))
    ensures Queued(PutIn(g, a, i, src, v), PutInCtx(g, c, a, i, src))
  {
    hide Coherent, Queued;
    PutInCoherent(g, c, a, i, src, v);
    PutInQueued(g, c, a, i, src, v);
  }

  lemma PutInCoherent(g: G, c: Ctx, a: nat, i: nat, src: Source, v: Value)
    requires Coherent(g, c) && a < Size(g) && a in c.running && i <= |g.sources[a]|
    ensures Coherent(PutIn(g, a, i, src, v), PutInCtx(g, c, a, i, src))
  {
  }

  lemma PutInQueued(g: G, c: Ctx, a: nat, i: nat, src: Source, v: Value)
    requires Queued(g, c) && a < Size(g) && a in c.running && i <= |g.sources[a]|
    ensures Queued(PutIn(g, a, i, src, v), PutInCtx(g, c, a, i, src))
  {
  }
}
