// Marking bindings and nodes when a state changes, as functions on the graph state
// (`SinkBindings::notify`, `ScanNode::notify`, `EffectNode::notify`, `KeepNode::notify`).
module MarkingSteps {
  import opened DirtyLattice
  import opened Options
  import opened Computation
  import opened GraphState
  import opened BindingSteps

  function Marking(c: Ctx, n: nat): Ctx { c.(marking := c.marking + {n}) }

  function Told(c: Ctx, n: nat): Ctx { c.(marking := c.marking - {n}) }

  /** `SourceBinder::on_notify`: raise the node's own mark. */
  function RaiseNode(g: G, a: nat, level: DirtyLevel): G
    requires Lengths(g) && a < Size(g)
  {
    g.(dirty := g.dirty[a := RaiseTo(g.dirty[a], level)])
  }

  /** `EffectNode::schedule`. */
  function Schedule(g: G, a: nat): G {
    g.(pending := g.pending + [a])
  }

  /** The node's own reaction to a notification, before its sinks are told. */
  function NotifyStep(g: G, a: nat, level: DirtyLevel): G
    requires Lengths(g) && a < Size(g)
  {
    if g.kinds[a].EffectNode? && g.dirty[a] == Clean then Schedule(RaiseNode(g, a, level), a)
    else RaiseNode(g, a, level)
  }

  predicate Notifiable(g: G, a: nat)
    requires Lengths(g)
  {
    a < Size(g) && g.alive[a] && !g.kinds[a].StateNode?
  }

  /** Marking is not in progress inside an evaluation. */
  predicate Quiet(c: Ctx) {
    c.running == {} && c.resolved == {} && c.loose == {}
  }

  lemma NotifyStepShape(g: G, c: Ctx, a: nat, level: DirtyLevel)
    requires Shape(g, c) && Notifiable(g, a)
    ensures Shape(NotifyStep(g, a, level), Marking(c, a))
  {
    var g' := NotifyStep(g, a, level);
    forall b: nat | b < Size(g') ensures NodeOk(g', b) {
      assert NodeOk(g, b);
    }
    assert Kinds(g');
    SameLinksKeeps(g, g', c);
    CtxLinks(g', c, Marking(c, a));
  }

  lemma CtxLinks(g: G, c: Ctx, c': Ctx)
    requires Lengths(g) && Links(g, c) && c'.loose == c.loose
    ensures Links(g, c')
  {
    forall s, k | 0 <= s < Size(g) && k in g.sinks[s] ensures Owned(g, c', s, k) {
      assert Owned(g, c, s, k);
    }
  }

  lemma NotifyStepCoherent(g: G, c: Ctx, a: nat, level: DirtyLevel)
    requires Coherent(g, c) && Notifiable(g, a)
    ensures Coherent(NotifyStep(g, a, level), Marking(c, a))
  {
    var g' := NotifyStep(g, a, level);
    var c' := Marking(c, a);
    forall s, k | 0 <= s < Size(g) && k in g'.sinks[s] ensures Marked(g', c', s, k) {
      assert Marked(g, c, s, k);
    }
  }

  lemma NotifyStepQueued(g: G, c: Ctx, a: nat, level: DirtyLevel)
    requires Queued(g, c) && Notifiable(g, a) && c.running == {}
    ensures Queued(NotifyStep(g, a, level), Marking(c, a))
  {
    NotifyStepEffects(g, c, a, level);
  }

  lemma NotifyStepEffects(g: G, c: Ctx, a: nat, level: DirtyLevel)
    requires Lengths(g) && Effects(g, c) && Notifiable(g, a) && c.running == {}
    ensures Effects(NotifyStep(g, a, level), Marking(c, a))
  {
  }

  lemma NotifyStepKeeps(g: G, c: Ctx, a: nat, level: DirtyLevel)
    requires Inv(g, c) && Notifiable(g, a) && c.running == {}
    ensures Inv(NotifyStep(g, a, level), Marking(c, a))
    ensures NotifyStep(g, a, level).dirty[a] != Clean
  {
    NotifyStepShape(g, c, a, level);
    NotifyStepCoherent(g, c, a, level);
    NotifyStepQueued(g, c, a, level);
  }

  /** The mark on one binding goes up. */
  function RaiseBinding(g: G, s: nat, k: nat, level: DirtyLevel): G
    requires Lengths(g) && s < Size(g) && k in g.sinks[s]
  {
    var b := g.sinks[s][k];
    g.(sinks := g.sinks[s := SetEntry(g.sinks[s], k, b.(dirty := RaiseTo(b.dirty, level)))])
  }

  lemma RaiseBindingShape(g: G, c: Ctx, s: nat, k: nat, level: DirtyLevel)
    requires Shape(g, c) && s < Size(g) && k in g.sinks[s]
    ensures Shape(RaiseBinding(g, s, k, level), c)
  {
    var g' := RaiseBinding(g, s, k, level);
    forall b: nat | b < Size(g') ensures NodeOk(g', b) {
      assert NodeOk(g, b);
    }
    SameLinksKeeps(g, g', c);
  }

  lemma RaiseBindingCoherent(g: G, c: Ctx, s: nat, k: nat, level: DirtyLevel)
    requires Coherent(g, c) && s < Size(g) && k in g.sinks[s] && c.resolved == {}
    requires var a := g.sinks[s][k].sink; a < Size(g) && (g.alive[a] ==> g.dirty[a] != Clean)
    requires level == DirtyLevel || g.dirty[s] != Clean
    ensures Coherent(RaiseBinding(g, s, k, level), c)
  {
    var g' := RaiseBinding(g, s, k, level);
    forall t, j | 0 <= t < Size(g) && j in g'.sinks[t] ensures Marked(g', c, t, j) {
      assert Marked(g, c, t, j);
    }
    forall a, i | 0 <= a < Size(g) && a !in c.running && 0 <= i < |g'.sources[a]| ensures SeenAt(g', c, a, i) {
      assert SeenAt(g, c, a, i);
    }
  }

  lemma RaiseBindingQueued(g: G, c: Ctx, s: nat, k: nat, level: DirtyLevel)
    requires Queued(g, c) && s < Size(g) && k in g.sinks[s]
    ensures Queued(RaiseBinding(g, s, k, level), c)
  {
  }

  lemma RaiseBindingKeeps(g: G, c: Ctx, s: nat, k: nat, level: DirtyLevel)
    requires Inv(g, c) && s < Size(g) && k in g.sinks[s] && c.resolved == {}
    requires var a := g.sinks[s][k].sink; a < Size(g) && (g.alive[a] ==> g.dirty[a] != Clean)
    requires level == DirtyLevel || g.dirty[s] != Clean
    ensures Inv(RaiseBinding(g, s, k, level), c)
  {
    RaiseBindingShape(g, c, s, k, level);
    RaiseBindingCoherent(g, c, s, k, level);
    RaiseBindingQueued(g, c, s, k, level);
  }

  // ----- what a notification changes -----

  predicate BindingRaised(b: Binding, b': Binding) {
    b'.sink == b.sink && Rank(b.dirty) <= Rank(b'.dirty)
  }

  predicate TableRaised(m: map<nat, Binding>, m': map<nat, Binding>) {
    m'.Keys == m.Keys && forall k :: k in m ==> BindingRaised(m[k], m'[k])
  }

  /** From `g` to `g'` marks went up on nodes from `lo` on, and reactions were added; nothing else. */
  predicate Notified(g: G, g': G, lo: nat) {
    && Lengths(g) && Lengths(g')
    && g'.kinds == g.kinds && g'.vals == g.vals && g'.alive == g.alive && g'.cache == g.cache
    && g'.sources == g.sources && g'.scheduled == g.scheduled && g'.discards == g.discards
    && g'.unbinds == g.unbinds && g'.notifys == g.notifys && g'.seen == g.seen && g'.ran == g.ran
    && g.pending <= g'.pending
    && (forall m :: 0 <= m < Size(g) ==> Rank(g.dirty[m]) <= Rank(g'.dirty[m]) && TableRaised(g.sinks[m], g'.sinks[m]))
    && (forall m :: 0 <= m < lo && m < Size(g) ==> g'.dirty[m] == g.dirty[m] && g'.sinks[m] == g.sinks[m])
  }

  lemma NotifiedTrans(g0: G, g1: G, g2: G, lo: nat)
    requires Notified(g0, g1, lo) && Notified(g1, g2, lo)
    ensures Notified(g0, g2, lo)
  {
    forall m | 0 <= m < Size(g0)
      ensures Rank(g0.dirty[m]) <= Rank(g2.dirty[m]) && TableRaised(g0.sinks[m], g2.sinks[m])
    {
      assert TableRaised(g0.sinks[m], g1.sinks[m]) && TableRaised(g1.sinks[m], g2.sinks[m]);
    }
  }

  lemma NotifiedMore(g: G, g': G, lo: nat, lo': nat)
    requires Notified(g, g', lo') && lo <= lo'
    ensures Notified(g, g', lo)
  {
  }

  lemma NotifyStepNotified(g: G, a: nat, level: DirtyLevel)
    requires Lengths(g) && a < Size(g)
    ensures Notified(g, NotifyStep(g, a, level), a)
  {
  }

  lemma RaiseBindingNotified(g: G, s: nat, k: nat, level: DirtyLevel)
    requires Lengths(g) && s < Size(g) && k in g.sinks[s]
    ensures Notified(g, RaiseBinding(g, s, k, level), s)
    ensures RaiseBinding(g, s, k, level).dirty == g.dirty
  {
  }

  // ----- how far a notification spreads -----

  /** Node `m` has a binding of the live node `a`; with `hard`, one through which a Dirty mark passes on. */
  predicate Feeds(g: G, m: nat, a: nat, hard: bool)
    requires Lengths(g)
  {
    && m < a < Size(g) && g.alive[a] && (hard ==> !Filters(g, m))
    && exists k :: k in g.sinks[m] && g.sinks[m][k].sink == a
  }

  /** A chain of bindings of live nodes leads from `s` down to `a`; with `hard`, past no memo that compares. */
  ghost predicate Downstream(g: G, s: nat, a: nat, hard: bool)
    requires Lengths(g)
    decreases a
  {
    s == a || exists m: nat :: s <= m < a && Feeds(g, m, a, hard) && Downstream(g, s, m, hard)
  }

  lemma {:induction false} DownstreamVia(g: G, s: nat, m: nat, a: nat, hard: bool)
    requires Lengths(g) && s < m && Feeds(g, s, m, hard) && Downstream(g, m, a, hard)
    ensures Downstream(g, s, a, hard)
    decreases a
  {
    assert Downstream(g, s, s, hard);
    if m != a {
      var n: nat :| m <= n < a && Feeds(g, n, a, hard) && Downstream(g, m, n, hard);
      DownstreamVia(g, s, m, n, hard);
    }
  }

  /** All bindings of `g` are bindings of `g0`, of the same nodes. */
  predicate Thinner(g0: G, g: G) {
    && Lengths(g0) && Lengths(g) && g.kinds == g0.kinds && g.alive == g0.alive
    && forall m, k :: 0 <= m < Size(g) && k in g.sinks[m] ==>
         k in g0.sinks[m] && g.sinks[m][k].sink == g0.sinks[m][k].sink
  }

  lemma {:induction false} DownstreamBefore(g0: G, g: G, s: nat, a: nat, hard: bool)
    requires Thinner(g0, g) && Downstream(g, s, a, hard)
    ensures Downstream(g0, s, a, hard)
    decreases a
  {
    if s != a {
      var m: nat :| s <= m < a && Feeds(g, m, a, hard) && Downstream(g, s, m, hard);
      DownstreamBefore(g0, g, s, m, hard);
      assert Feeds(g0, m, a, hard);
    }
  }

  lemma NotifiedIsThinner(g: G, g': G, lo: nat)
    requires Notified(g, g', lo)
    ensures Thinner(g, g')
  {
    forall m, k | 0 <= m < Size(g) && k in g'.sinks[m]
      ensures k in g.sinks[m] && g'.sinks[m][k].sink == g.sinks[m][k].sink
    {
      assert TableRaised(g.sinks[m], g'.sinks[m]);
    }
  }

  /** If the mark of `a` went up, it came down from `s`, and to Dirty only with a Dirty notification. */
  ghost predicate NodeFrom(g: G, g': G, s: nat, level: DirtyLevel, a: nat)
    requires Lengths(g) && Lengths(g') && a < Size(g) && a < Size(g')
  {
    g'.dirty[a] != g.dirty[a] ==>
      Downstream(g, s, a, false) && (g'.dirty[a] == Dirty ==> level == DirtyLevel && Downstream(g, s, a, true))
  }

  /** The same for the mark of a binding at `m`. */
  ghost predicate BindingFrom(g: G, g': G, s: nat, level: DirtyLevel, m: nat, k: nat)
    requires Lengths(g) && Lengths(g') && m < Size(g) && m < Size(g') && k in g.sinks[m] && k in g'.sinks[m]
  {
    g'.sinks[m][k].dirty != g.sinks[m][k].dirty ==>
      && Downstream(g, s, m, false)
      && (g'.sinks[m][k].dirty == Dirty ==> level == DirtyLevel && !Filters(g, m) && Downstream(g, s, m, true))
  }

  /** Only marks downstream of `s` went up. */
  ghost predicate OnlyBelow(g: G, g': G, s: nat, level: DirtyLevel) {
    && Lengths(g) && Lengths(g') && Size(g) == Size(g')
    && (forall a :: 0 <= a < Size(g) ==> NodeFrom(g, g', s, level, a))
    && (forall m, k :: 0 <= m < Size(g) && k in g.sinks[m] && k in g'.sinks[m] ==> BindingFrom(g, g', s, level, m, k))
  }

  /** A notification of `s` was carried out: only marks downstream of `s` went up, and reactions were added. */
  ghost predicate Spread(g: G, g': G, s: nat, level: DirtyLevel) {
    Notified(g, g', s) && OnlyBelow(g, g', s, level)
  }

  lemma OnlyBelowRefl(g: G, s: nat, level: DirtyLevel)
    requires Lengths(g)
    ensures OnlyBelow(g, g, s, level)
  {
  }

  lemma OnlyBelowTrans(g0: G, g1: G, g2: G, s: nat, level: DirtyLevel)
    requires OnlyBelow(g0, g1, s, level) && OnlyBelow(g1, g2, s, level) && Thinner(g0, g1)
    requires forall m :: 0 <= m < Size(g0) ==> g1.sinks[m].Keys == g0.sinks[m].Keys
    ensures OnlyBelow(g0, g2, s, level)
  {
    forall a | 0 <= a < Size(g0) ensures NodeFrom(g0, g2, s, level, a) {
      assert NodeFrom(g0, g1, s, level, a) && NodeFrom(g1, g2, s, level, a);
      BeforeBoth(g0, g1, s, a);
    }
    forall m, k | 0 <= m < Size(g0) && k in g0.sinks[m] && k in g2.sinks[m] ensures BindingFrom(g0, g2, s, level, m, k)
    {
      assert k in g1.sinks[m].Keys;
      assert BindingFrom(g0, g1, s, level, m, k) && BindingFrom(g1, g2, s, level, m, k);
      BeforeBoth(g0, g1, s, m);
    }
  }

  lemma BeforeBoth(g0: G, g: G, s: nat, a: nat)
    requires Thinner(g0, g)
    ensures Downstream(g, s, a, false) ==> Downstream(g0, s, a, false)
    ensures Downstream(g, s, a, true) ==> Downstream(g0, s, a, true)
  {
    if Downstream(g, s, a, false) {
      DownstreamBefore(g0, g, s, a, false);
    }
    if Downstream(g, s, a, true) {
      DownstreamBefore(g0, g, s, a, true);
    }
  }

  lemma SpreadTrans(g0: G, g1: G, g2: G, s: nat, level: DirtyLevel)
    requires Spread(g0, g1, s, level) && Spread(g1, g2, s, level)
    ensures Spread(g0, g2, s, level)
  {
    NotifiedIsThinner(g0, g1, s);
    NotifiedTrans(g0, g1, g2, s);
    hide Downstream, NodeFrom, BindingFrom;
    assert forall m :: 0 <= m < Size(g0) ==> TableRaised(g0.sinks[m], g1.sinks[m]);
    OnlyBelowTrans(g0, g1, g2, s, level);
  }

  /** What is downstream of a sink of `s` is downstream of `s`. */
  lemma SpreadVia(g: G, g': G, s: nat, a: nat, level: DirtyLevel)
    requires Spread(g, g', a, level) && Feeds(g, s, a, false) && (level == DirtyLevel ==> !Filters(g, s))
    ensures Spread(g, g', s, level)
  {
    NotifiedMore(g, g', s, a);
    forall x | 0 <= x < Size(g) ensures NodeFrom(g, g', s, level, x) {
      assert NodeFrom(g, g', a, level, x);
      ViaBoth(g, s, a, x);
    }
    forall m, k | 0 <= m < Size(g) && k in g.sinks[m] && k in g'.sinks[m] ensures BindingFrom(g, g', s, level, m, k) {
      assert BindingFrom(g, g', a, level, m, k);
      ViaBoth(g, s, a, m);
    }
  }

  lemma ViaBoth(g: G, s: nat, m: nat, a: nat)
    requires Lengths(g) && s < Size(g) && Feeds(g, s, m, false)
    ensures Downstream(g, m, a, false) ==> Downstream(g, s, a, false)
    ensures !Filters(g, s) && Downstream(g, m, a, true) ==> Downstream(g, s, a, true)
  {
    if Downstream(g, m, a, false) {
      DownstreamVia(g, s, m, a, false);
    }
    if !Filters(g, s) && Downstream(g, m, a, true) {
      DownstreamVia(g, s, m, a, true);
    }
  }

  lemma NotifyStepSpreads(g: G, a: nat, level: DirtyLevel)
    requires Lengths(g) && a < Size(g)
    ensures Spread(g, NotifyStep(g, a, level), a, level)
  {
    NotifyStepNotified(g, a, level);
  }

  lemma RaiseBindingSpreads(g: G, s: nat, k: nat, level: DirtyLevel)
    requires Lengths(g) && s < Size(g) && k in g.sinks[s] && (level == DirtyLevel ==> !Filters(g, s))
    ensures Spread(g, RaiseBinding(g, s, k, level), s, level)
    ensures RaiseBinding(g, s, k, level).dirty == g.dirty
  {
    RaiseBindingNotified(g, s, k, level);
  }

  /** A weaker notification spreads no further. */
  lemma SpreadSofter(g: G, g': G, s: nat, level: DirtyLevel, soft: DirtyLevel)
    requires Spread(g, g', s, soft) && (soft == level || soft == MaybeLevel)
    ensures Spread(g, g', s, level)
  {
    forall a | 0 <= a < Size(g) ensures NodeFrom(g, g', s, level, a) {
      assert NodeFrom(g, g', s, soft, a);
    }
    forall m, k | 0 <= m < Size(g) && k in g.sinks[m] && k in g'.sinks[m] ensures BindingFrom(g, g', s, level, m, k) {
      assert BindingFrom(g, g', s, soft, m, k);
    }
  }

  // ----- the end of a notification -----

  predicate AllMarked(g: G, n: nat)
    requires Lengths(g) && n < Size(g)
  {
    forall k :: k in g.sinks[n] ==> g.sinks[n][k].dirty != Clean
  }

  predicate AllDirty(g: G, n: nat)
    requires Lengths(g) && n < Size(g)
  {
    forall k :: k in g.sinks[n] ==> g.sinks[n][k].dirty == Dirty
  }

  lemma ToldKeeps(g: G, c: Ctx, n: nat)
    requires Inv(g, c) && n < Size(g) && AllMarked(g, n)
    ensures Inv(g, Told(c, n))
  {
    CtxLinks(g, c, Told(c, n));
    ToldCoherent(g, c, n);
  }

  lemma ToldCoherent(g: G, c: Ctx, n: nat)
    requires Coherent(g, c) && n < Size(g) && AllMarked(g, n)
    ensures Coherent(g, Told(c, n))
  {
    forall s, k | 0 <= s < Size(g) && k in g.sinks[s] ensures Marked(g, Told(c, n), s, k) {
      assert Marked(g, c, s, k);
    }
  }

  lemma MarkedBefore(g: G, c: Ctx, n: nat)
    requires Coherent(g, c) && n < Size(g) && g.dirty[n] != Clean && c.running == {} && n !in c.marking
    ensures AllMarked(g, n)
  {
    forall k | k in g.sinks[n] ensures g.sinks[n][k].dirty != Clean {
      assert Marked(g, c, n, k);
    }
  }

  /** A state all of whose bindings are Dirty no longer has readers with an outdated value. */
  lemma FreshAgain(g: G, c: Ctx, n: nat)
    requires Inv(g, c) && n < Size(g) && AllDirty(g, n)
    ensures Inv(g, c.(stale := c.stale - {n}))
  {
    var c' := c.(stale := c.stale - {n});
    CtxLinks(g, c, c');
    forall a, i | 0 <= a < Size(g) && a !in c.running && 0 <= i < |g.sources[a]| ensures SeenAt(g, c', a, i) {
      assert SeenAt(g, c, a, i);
    }
  }

  // ----- changing a state -----

  function SetValue(g: G, s: nat, v: Value): G
    requires Lengths(g)
  {
    g.(vals := g.vals[s := v])
  }

  function Stale(c: Ctx, s: nat): Ctx { c.(stale := c.stale + {s}) }

  lemma SetValueKeeps(g: G, c: Ctx, s: nat, v: Value)
    requires Inv(g, c) && s < Size(g) && g.kinds[s].StateNode?
    ensures Inv(SetValue(g, s, v), Stale(c, s))
  {
    var g' := SetValue(g, s, v);
    forall b: nat | b < Size(g') ensures NodeOk(g', b) {
      assert NodeOk(g, b);
    }
    assert Kinds(g');
    SameLinksKeeps(g, g', c);
    CtxLinks(g', c, Stale(c, s));
    SetValueCoherent(g, c, s, v);
  }

  lemma SetValueCoherent(g: G, c: Ctx, s: nat, v: Value)
    requires Coherent(g, c) && Queued(g, c) && s < Size(g) && g.kinds[s].StateNode?
    ensures Coherent(SetValue(g, s, v), Stale(c, s)) && Queued(SetValue(g, s, v), Stale(c, s))
  {
    var g' := SetValue(g, s, v);
    forall a, i | 0 <= a < Size(g) && a !in c.running && 0 <= i < |g'.sources[a]|
      ensures SeenAt(g', Stale(c, s), a, i)
    {
      assert SeenAt(g, c, a, i);
    }
  }

  /** A clean node may be announced; starting to announce a state is always possible. */
  lemma MarkingKeeps(g: G, c: Ctx, n: nat)
    requires Inv(g, c)
    ensures Inv(g, Marking(c, n))
  {
    CtxLinks(g, c, Marking(c, n));
    MarkingCoherent(g, c, n);
  }

  lemma MarkingCoherent(g: G, c: Ctx, n: nat)
    requires Coherent(g, c)
    ensures Coherent(g, Marking(c, n))
  {
    forall s, k | 0 <= s < Size(g) && k in g.sinks[s] ensures Marked(g, Marking(c, n), s, k) {
      assert Marked(g, c, s, k);
    }
  }

  lemma SinkFacts(g: G, c: Ctx, s: nat, k: nat)
    requires Shape(g, c) && s < Size(g) && k in g.sinks[s] && c.loose == {}
    ensures s < g.sinks[s][k].sink < Size(g)
    ensures g.alive[g.sinks[s][k].sink] ==> !g.kinds[g.sinks[s][k].sink].StateNode?
  {
    assert Owned(g, c, s, k);
    assert NodeOk(g, g.sinks[s][k].sink);
  }

  // ----- packaged for the methods of the graph -----

  /** Marking works upwards: every node being marked is below `n`. */
  predicate MarkingBelow(c: Ctx, n: nat) {
    && Quiet(c)
    && forall x :: x in c.marking ==> x < n
  }

  /** A node that tells nobody is done as soon as its own mark is raised. */
  lemma NotifyRests(g: G, c: Ctx, a: nat, level: DirtyLevel)
    requires Inv(g, c) && MarkingBelow(c, a) && Notifiable(g, a)
    requires g.dirty[a] != Clean || !g.kinds[a].MemoNode?
    ensures Lengths(g) && Inv(NotifyStep(g, a, level), c)
    ensures Spread(g, NotifyStep(g, a, level), a, level)
    ensures Rank(FromLevel(level)) <= Rank(NotifyStep(g, a, level).dirty[a])
  {
    hide Spread;
    var g' := NotifyStep(g, a, level);
    NotifyStepKeeps(g, c, a, level);
    NotifyStepSpreads(g, a, level);
    assert AllMarked(g', a) by {
      assert NodeOk(g, a);
      if g.kinds[a].MemoNode? {
        MarkedBefore(g, c, a);
      }
    }
    ToldKeeps(g', Marking(c, a), a);
    assert Told(Marking(c, a), a) == c;
  }

  /** A memo that was clean goes on to tell its sinks. */
  lemma NotifyGoesOn(g: G, c: Ctx, a: nat, level: DirtyLevel)
    requires Inv(g, c) && MarkingBelow(c, a) && Notifiable(g, a)
    ensures Lengths(g) && Inv(NotifyStep(g, a, level), Marking(c, a))
    ensures Spread(g, NotifyStep(g, a, level), a, level)
    ensures Rank(FromLevel(level)) <= Rank(NotifyStep(g, a, level).dirty[a])
    ensures Told(Marking(c, a), a) == c && MarkingBelow(Marking(c, a), a + 1)
    ensures a < |NotifyStep(g, a, level).dirty| == |g.kinds| && NotifyStep(g, a, level).kinds == g.kinds
  {
    hide Spread, Kinds, Links, Coherent, Queued;
    NotifyStepKeeps(g, c, a, level);
    NotifyStepSpreads(g, a, level);
  }

  lemma NotifyArrives(g0: G, g1: G, g: G, a: nat, level: DirtyLevel, filter: bool)
    requires Spread(g0, g1, a, level) && Spread(g1, g, a, MaybeIf(level, filter))
    requires a < Size(g0) && Rank(FromLevel(level)) <= Rank(g1.dirty[a])
    ensures Spread(g0, g, a, level) && Lengths(g) && a < Size(g) && Rank(FromLevel(level)) <= Rank(g.dirty[a])
  {
    SpreadSofter(g1, g, a, level, MaybeIf(level, filter));
    SpreadTrans(g0, g1, g, a, level);
  }

  /** The bindings of `s` under the keys not in `todo` have been marked since `g0`. */
  ghost predicate MarkedSoFar(g0: G, g: G, s: nat, level: DirtyLevel, todo: set<nat>) {
    && Spread(g0, g, s, level) && s < Size(g) && g.dirty[s] == g0.dirty[s]
    && todo <= g.sinks[s].Keys
    && forall k :: k in g.sinks[s] && k !in todo ==>
         g.sinks[s][k].dirty != Clean && (level == DirtyLevel ==> g.sinks[s][k].dirty == Dirty)
  }

  lemma MarkedNone(g: G, s: nat, level: DirtyLevel)
    requires Lengths(g) && s < Size(g)
    ensures MarkedSoFar(g, g, s, level, g.sinks[s].Keys)
  {
    OnlyBelowRefl(g, s, level);
  }

  lemma MarkedFacts(g0: G, g: G, c: Ctx, s: nat, level: DirtyLevel, todo: set<nat>, k: nat)
    requires Inv(g, c) && MarkedSoFar(g0, g, s, level, todo) && k in todo && MarkingBelow(c, s + 1)
    ensures Lengths(g) && s < Size(g) && k in g.sinks[s] && g.kinds == g0.kinds
    ensures s < g.sinks[s][k].sink < Size(g)
    ensures MarkingBelow(c, g.sinks[s][k].sink)
    ensures g.alive[g.sinks[s][k].sink] ==> !g.kinds[g.sinks[s][k].sink].StateNode?
    ensures g.sinks[s][k].dirty != Clean && g.alive[g.sinks[s][k].sink] ==> g.dirty[g.sinks[s][k].sink] != Clean
  {
    SinkFacts(g, c, s, k);
    assert Marked(g, c, s, k);
  }

  /** The sink of binding `k` has been told, if it was necessary. */
  ghost predicate SinkTold(g: G, g1: G, s: nat, k: nat, level: DirtyLevel)
    requires Lengths(g) && s < Size(g) && k in g.sinks[s]
  {
    && Notified(g, g1, s + 1) && OnlyBelow(g, g1, s, level)
    && var a := g.sinks[s][k].sink; a < Size(g1) && (g1.alive[a] ==> g1.dirty[a] != Clean)
  }

  lemma NeedsNoTelling(g0: G, g: G, c: Ctx, s: nat, level: DirtyLevel, todo: set<nat>, k: nat)
    requires Inv(g, c) && MarkedSoFar(g0, g, s, level, todo) && k in todo && MarkingBelow(c, s + 1)
    requires g.sinks[s][k].dirty != Clean
    ensures SinkTold(g, g, s, k, level)
  {
    hide Inv, OnlyBelow, MarkingBelow;
    MarkedFacts(g0, g, c, s, level, todo, k);
    OnlyBelowRefl(g, s, level);
  }

  /** The notification of sink `a`; nothing happens to a dropped one. */
  ghost predicate Reached(g: G, g1: G, a: nat, level: DirtyLevel) {
    && Lengths(g) && a < Size(g) == Size(g1) && Lengths(g1)
    && (g1.alive[a] ==> Rank(FromLevel(level)) <= Rank(g1.dirty[a]))
    && if g.alive[a] then Spread(g, g1, a, level) else g1 == g
  }

  lemma ReachedDead(g: G, a: nat, level: DirtyLevel)
    requires Lengths(g) && a < Size(g) && !g.alive[a]
    ensures Reached(g, g, a, level)
  {
  }

  lemma ReachedLive(g: G, g1: G, a: nat, level: DirtyLevel)
    requires Lengths(g) && a < Size(g) && g.alive[a] && Spread(g, g1, a, level)
    requires Rank(FromLevel(level)) <= Rank(g1.dirty[a])
    ensures Reached(g, g1, a, level)
  {
  }

  lemma IsTold(g: G, g1: G, s: nat, k: nat, a: nat, level: DirtyLevel)
    requires Lengths(g) && s < Size(g) && k in g.sinks[s] && g.sinks[s][k].sink == a && s < a < Size(g)
    requires Reached(g, g1, a, level) && (level == DirtyLevel ==> !Filters(g, s))
    ensures SinkTold(g, g1, s, k, level)
  {
    if g.alive[a] {
      NotifiedMore(g, g1, s + 1, a);
      assert Feeds(g, s, a, false);
      SpreadVia(g, g1, s, a, level);
    } else {
      OnlyBelowRefl(g, s, level);
    }
  }

  lemma MarkedOne(g0: G, g: G, g1: G, c: Ctx, s: nat, level: DirtyLevel, todo: set<nat>, k: nat)
    requires Inv(g1, c) && MarkedSoFar(g0, g, s, level, todo) && k in todo && Quiet(c)
    requires level == DirtyLevel || g0.dirty[s] != Clean
    requires level == DirtyLevel ==> !Filters(g0, s)
    requires SinkTold(g, g1, s, k, level)
    ensures Lengths(g1) && s < Size(g1) && k in g1.sinks[s]
    ensures Inv(RaiseBinding(g1, s, k, level), c)
    ensures MarkedSoFar(g0, RaiseBinding(g1, s, k, level), s, level, todo - {k})
  {
    RaiseBindingKeeps(g1, c, s, k, level);
    MarkedOneFrame(g0, g, g1, s, level, todo, k);
  }

  lemma MarkedOneFrame(g0: G, g: G, g1: G, s: nat, level: DirtyLevel, todo: set<nat>, k: nat)
    requires MarkedSoFar(g0, g, s, level, todo) && k in todo && (level == DirtyLevel ==> !Filters(g0, s))
    requires Notified(g, g1, s + 1) && OnlyBelow(g, g1, s, level)
    ensures MarkedSoFar(g0, RaiseBinding(g1, s, k, level), s, level, todo - {k})
  {
    hide OnlyBelow;
    NotifiedMore(g, g1, s, s + 1);
    RaiseBindingSpreads(g1, s, k, level);
    SpreadTrans(g0, g, g1, s, level);
    SpreadTrans(g0, g1, RaiseBinding(g1, s, k, level), s, level);
  }

  lemma MarkedDone(g0: G, g: G, c: Ctx, s: nat, level: DirtyLevel)
    requires Inv(g, c) && MarkedSoFar(g0, g, s, level, {})
    ensures Lengths(g) && s < Size(g) && Inv(g, Told(c, s)) && Spread(g0, g, s, level) && g.dirty[s] == g0.dirty[s]
    ensures level == DirtyLevel ==> AllDirty(g, s)
  {
    hide Spread;
    ToldKeeps(g, c, s);
  }
}
