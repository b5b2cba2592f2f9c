// The state of the reactive graph as one value, and the invariant every operation keeps.
module GraphState {
  import opened DirtyLattice
  import opened Options
  import opened Computation

  /** A sink's entry in the binding table of a source (`SinkBinding`). */
  datatype Binding = Binding(sink: nat, dirty: Dirty)

  /**
   * A snapshot of the node table. `seen[a][i]` is the value node `a` read at source position `i`
   * in its last run, and `ran` the nodes whose functions were run; both exist for the proof only.
   */
  datatype G = G(
    kinds: seq<Kind>,
    vals: map<nat, Value>,
    alive: seq<bool>,
    dirty: seq<Dirty>,
    cache: seq<Option<Value>>,
    sources: seq<seq<Source>>,
    sinks: seq<map<nat, Binding>>,
    scheduled: seq<bool>,
    discards: seq<nat>,
    unbinds: seq<Source>,
    notifys: seq<nat>,
    pending: seq<nat>,
    seen: seq<seq<Value>>,
    ran: seq<nat>)

  /**
   * Operations in progress.
   * running: nodes whose function is being run or whose sources are being cleared;
   * marking: nodes whose bindings are being notified;
   * stale: states changed through a loose edit whose notification is still queued;
   * resolved: nodes whose cache was just replaced and whose bindings are not yet updated;
   * loose: dependencies taken out of a source list whose entry is not yet removed at the source.
   */
  datatype Ctx = Ctx(running: set<nat>, marking: set<nat>, stale: set<nat>, resolved: set<nat>, loose: set<Source>)

  const IDLE := Ctx({}, {}, {}, {}, {})

  function Size(g: G): nat { |g.kinds| }

  predicate Lengths(g: G) {
    && |g.alive| == |g.dirty| == |g.cache| == |g.sources| == |g.sinks| == |g.scheduled| == |g.seen| == |g.kinds|
    && forall a :: 0 <= a < |g.kinds| ==> |g.seen[a]| == |g.sources[a]|
  }

  /** A memo that compares its new value with its old one. */
  predicate Filters(g: G, s: nat)
    requires s < Size(g)
  {
    g.kinds[s].MemoNode? && g.kinds[s].filter
  }

  /** The live nodes a function of node `a` may read. */
  ghost function Readable(g: G, a: nat): set<nat>
    requires Lengths(g)
  {
    set s: nat | s < a && s < Size(g) && !g.kinds[s].EffectNode? && g.alive[s]
  }

  ghost predicate Kinds(g: G)
    requires Lengths(g)
  {
    && Program(g.kinds)
    && Values(g.kinds, g.vals)
    && (forall a: nat :: a < Size(g) && g.alive[a] && !g.kinds[a].StateNode? ==>
          ReadsOnly(CompOf(g.kinds[a]), Readable(g, a)))
    && (forall a: nat :: a < Size(g) ==> NodeOk(g, a))
  }

  predicate NodeOk(g: G, a: nat)
    requires Lengths(g) && a < Size(g)
  {
    && (g.kinds[a].StateNode? ==> g.dirty[a] == Clean && g.sources[a] == [])
    && (!g.kinds[a].MemoNode? ==> g.cache[a] == None && !g.scheduled[a])
    && (g.kinds[a].EffectNode? || g.kinds[a].KeepNode? || !g.alive[a] ==> g.sinks[a] == map[])
    && (!g.alive[a] ==> g.sources[a] == [])
  }

  /** `src` is a dependency of node `a` that the source knows about. */
  predicate Linked(g: G, src: Source, a: nat)
    requires Lengths(g)
  {
    && src.node < a
    && src.node < Size(g)
    && src.key in g.sinks[src.node]
    && g.sinks[src.node][src.key].sink == a
  }

  /** Source positions and binding entries are inverse one-to-one relations, up to deferred unbinds. */
  ghost predicate Links(g: G, c: Ctx)
    requires Lengths(g)
  {
    && Forward(g)
    && Distinct(g)
    && Backward(g, c)
    && Orphans(g)
    && Strays(g, c)
  }

  predicate Forward(g: G)
    requires Lengths(g)
  {
    forall a, i {:trigger Linked(g, g.sources[a][i], a)} {:trigger g.sources[a][i]} ::
      0 <= a < Size(g) && 0 <= i < |g.sources[a]| ==> Linked(g, g.sources[a][i], a)
  }

  predicate Distinct(g: G)
    requires Lengths(g)
  {
    forall a, i, j :: 0 <= a < Size(g) && 0 <= i < j < |g.sources[a]| ==> g.sources[a][i] != g.sources[a][j]
  }

  predicate Backward(g: G, c: Ctx)
    requires Lengths(g)
  {
    forall s, k :: 0 <= s < Size(g) && k in g.sinks[s] ==> Owned(g, c, s, k)
  }

  predicate Orphans(g: G)
    requires Lengths(g)
  {
    && (forall i :: 0 <= i < |g.unbinds| ==> Orphan(g, g.unbinds[i]))
    && (forall i, j :: 0 <= i < j < |g.unbinds| ==> g.unbinds[i] != g.unbinds[j])
  }

  ghost predicate Strays(g: G, c: Ctx)
    requires Lengths(g)
  {
    forall u :: u in c.loose ==> Stray(g, u)
  }

  predicate Owned(g: G, c: Ctx, s: nat, k: nat)
    requires Lengths(g) && s < Size(g) && k in g.sinks[s]
  {
    var a := g.sinks[s][k].sink;
    && s < a < Size(g)
    && (Source(s, k) in c.loose
        || if g.alive[a] then Source(s, k) in g.sources[a] else Source(s, k) in g.unbinds)
  }

  predicate Stray(g: G, u: Source)
    requires Lengths(g)
  {
    && u.node < Size(g)
    && u.key in g.sinks[u.node]
    && g.sinks[u.node][u.key].sink < Size(g)
    && u !in g.sources[g.sinks[u.node][u.key].sink]
    && u !in g.unbinds
  }

  predicate Orphan(g: G, u: Source)
    requires Lengths(g)
  {
    && u.node < Size(g)
    && u.key in g.sinks[u.node]
    && g.sinks[u.node][u.key].sink < Size(g)
    && !g.alive[g.sinks[u.node][u.key].sink]
  }

  /** How the marks on nodes and bindings are related. */
  predicate Marks(g: G, c: Ctx)
    requires Lengths(g)
  {
    forall s, k :: 0 <= s < Size(g) && k in g.sinks[s] ==> Marked(g, c, s, k)
  }

  predicate Marked(g: G, c: Ctx, s: nat, k: nat)
    requires Lengths(g) && s < Size(g) && k in g.sinks[s]
  {
    var b := g.sinks[s][k];
    && (b.dirty != Clean && b.sink < Size(g) && g.alive[b.sink] && b.sink !in c.running ==> g.dirty[b.sink] != Clean)
    && (g.dirty[s] != Clean && b.sink !in c.running && s !in c.marking ==> b.dirty != Clean)
    && (b.dirty == MaybeDirty && s !in c.running ==> g.dirty[s] != Clean)
  }

  /** The value a reader of node `s` gets without any update. */
  function Current(g: G, s: nat): Option<Value>
    requires Lengths(g) && s < Size(g)
  {
    if g.kinds[s].StateNode? then (if s in g.vals then Some(g.vals[s]) else None) else g.cache[s]
  }

  /** A binding that is not Dirty means the source still has the value the sink read. */
  predicate Seen(g: G, c: Ctx)
    requires Lengths(g)
  {
    forall a, i {:trigger SeenAt(g, c, a, i)} {:trigger g.sources[a][i]} ::
      0 <= a < Size(g) && a !in c.running && 0 <= i < |g.sources[a]| ==> SeenAt(g, c, a, i)
  }

  predicate SeenAt(g: G, c: Ctx, a: nat, i: nat)
    requires Lengths(g) && a < Size(g) && i < |g.sources[a]|
  {
    var src := g.sources[a][i];
    src.node < Size(g) && src.key in g.sinks[src.node] && src.node !in c.stale &&
    (g.sinks[src.node][src.key].dirty == Clean
     || (g.sinks[src.node][src.key].dirty == MaybeDirty && src.node !in c.resolved)) ==>
      Current(g, src.node) == Some(g.seen[a][i])
  }

  /** A node that is not Dirty holds the result of replaying its function on the values it read. */
  ghost predicate Traced(g: G, c: Ctx)
    requires Lengths(g)
  {
    forall a: nat :: a < Size(g) && g.alive[a] && !g.kinds[a].StateNode? && a !in c.running && g.dirty[a] != Dirty ==>
      TracedAt(g, a)
  }

  ghost predicate TracedAt(g: G, a: nat)
    requires Lengths(g) && a < Size(g) && !g.kinds[a].StateNode?
  {
    var left := Advance(g.kinds, CompOf(g.kinds[a]), g.sources[a], g.seen[a], |g.sources[a]|);
    && left.Some? && left.value.Ret?
    && (g.kinds[a].MemoNode? ==> g.cache[a] == Some(left.value.value))
  }

  predicate Discardable(g: G, m: nat)
    requires Lengths(g) && m < Size(g)
  {
    g.kinds[m].MemoNode? && !g.kinds[m].pinned && g.alive[m]
  }

  predicate Unheard(g: G, m: nat)
    requires Lengths(g) && m < Size(g)
  {
    Discardable(g, m) && g.sinks[m] == map[]
  }

  predicate Holds(g: G, m: nat)
    requires Lengths(g) && m < Size(g)
  {
    g.cache[m].Some? || g.sources[m] != []
  }

  /** A memo that holds anything while nobody listens is scheduled for discarding, exactly once. */
  predicate Discards(g: G, c: Ctx)
    requires Lengths(g)
  {
    && (forall m :: 0 <= m < Size(g) && m !in c.running && Unheard(g, m) && Holds(g, m) ==> g.scheduled[m])
    && (forall m :: 0 <= m < Size(g) && g.scheduled[m] ==> m in g.discards && Discardable(g, m))
    && (forall i :: 0 <= i < |g.discards| ==> g.discards[i] < Size(g) && g.scheduled[g.discards[i]])
    && (forall i, j :: 0 <= i < j < |g.discards| ==> g.discards[i] != g.discards[j])
  }

  /** A live effect has one pending reaction when it is not clean and none when it is. */
  predicate Effects(g: G, c: Ctx)
    requires Lengths(g)
  {
    && (forall e :: 0 <= e < Size(g) && g.kinds[e].EffectNode? && g.alive[e] && e !in c.running ==>
          (e in g.pending <==> g.dirty[e] != Clean))
    && (forall i :: 0 <= i < |g.pending| ==> g.pending[i] < Size(g) && g.kinds[g.pending[i]].EffectNode?)
    && (forall i, j :: 0 <= i < j < |g.pending| ==> g.pending[i] != g.pending[j])
  }

  /** The part of the invariant that is about the shape of the table. */
  ghost predicate Shape(g: G, c: Ctx) {
    && Lengths(g)
    && Kinds(g)
    && Links(g, c)
    && (forall i :: 0 <= i < |g.notifys| ==> g.notifys[i] < Size(g) && g.kinds[g.notifys[i]].StateNode?)
  }

  /** The part that relates marks and caches to the values that were read. */
  ghost predicate Coherent(g: G, c: Ctx) {
    && Lengths(g)
    && Marks(g, c)
    && Seen(g, c)
    && Traced(g, c)
  }

  /** The part that is about the discard and reaction queues. */
  predicate Queued(g: G, c: Ctx) {
    && Lengths(g)
    && Discards(g, c)
    && Effects(g, c)
  }

  ghost predicate Inv(g: G, c: Ctx) {
    && Shape(g, c)
    && Coherent(g, c)
    && Queued(g, c)
  }
}
