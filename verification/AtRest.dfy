// The graph between operations: nothing is running, and only loose edits wait to be announced.
module AtRest {
  import opened DirtyLattice
  import opened Options
  import opened Computation
  import opened GraphState
  import opened BindingSteps
  import opened EvaluationSteps
  import opened Evolution
  import opened Runs
  import opened MarkingSteps
  import opened LifetimeSteps
  import opened ReactionOrder
  import opened Worlds

  function RestCtx(g: G): Ctx {
    Ctx({}, {}, set s | s in g.notifys, {}, {})
  }

  /** The invariant of every reachable state. */
  ghost predicate Ok(g: G) {
    Inv(g, RestCtx(g))
  }

  lemma StaleMore(g: G, c: Ctx, c': Ctx)
    requires Inv(g, c) && c.stale <= c'.stale && c' == c.(stale := c'.stale)
    ensures Inv(g, c')
  {
    CtxLinks(g, c, c');
    forall a, i | 0 <= a < Size(g) && a !in c'.running && 0 <= i < |g.sources[a]| ensures SeenAt(g, c', a, i) {
      assert SeenAt(g, c, a, i);
    }
    forall s, k | 0 <= s < Size(g) && k in g.sinks[s] ensures Marked(g, c', s, k) {
      assert Marked(g, c, s, k);
    }
  }

  // ----- setting a state -----

  function SetCtx(g: G, s: nat): Ctx { Marking(Stale(RestCtx(g), s), s) }

  lemma SetBegins(g: G, s: nat, v: Value)
    requires Ok(g) && Lengths(g) && Live(g, s) && g.kinds[s].StateNode?
    ensures Inv(SetValue(g, s, v), SetCtx(g, s)) && MarkingBelow(SetCtx(g, s), s + 1)
  {
    SetValueKeeps(g, RestCtx(g), s, v);
    MarkingKeeps(SetValue(g, s, v), Stale(RestCtx(g), s), s);
  }

  lemma SetEnds(g0: G, g: G, s: nat)
    requires Lengths(g) && s < Size(g) && Inv(g, Told(SetCtx(g0, s), s)) && AllDirty(g, s) && g.notifys == g0.notifys
    ensures Ok(g)
  {
    var c := Told(SetCtx(g0, s), s);
    FreshAgain(g, c, s);
    StaleMore(g, c.(stale := c.stale - {s}), RestCtx(g));
  }

  /** Everyone who reads `s` is told: its bindings are Dirty and its live sinks not clean. */
  predicate ToldAll(g: G, s: nat) {
    && Lengths(g) && s < Size(g) && AllDirty(g, s)
    && forall k :: k in g.sinks[s] && g.sinks[s][k].sink < Size(g) && g.alive[g.sinks[s][k].sink] ==>
         g.dirty[g.sinks[s][k].sink] != Clean
  }

  lemma DirtyIsTold(g: G, s: nat)
    requires Ok(g) && Lengths(g) && s < Size(g) && AllDirty(g, s)
    ensures ToldAll(g, s)
  {
    forall k | k in g.sinks[s] && g.sinks[s][k].sink < Size(g) && g.alive[g.sinks[s][k].sink]
      ensures g.dirty[g.sinks[s][k].sink] != Clean
    {
      assert Marked(g, RestCtx(g), s, k);
    }
  }

  // ----- loose edits and their scheduled notification -----

  function PushNotify(g: G, s: nat): G { g.(notifys := g.notifys + [s]) }

  function PopNotify(g: G): G
    requires g.notifys != []
  {
    g.(notifys := g.notifys[1..])
  }

  lemma NotifysKeep(g: G, c: Ctx, notifys: seq<nat>)
    requires Inv(g, c)
    requires forall i :: 0 <= i < |notifys| ==> notifys[i] < Size(g) && g.kinds[notifys[i]].StateNode?
    ensures Inv(g.(notifys := notifys), c)
  {
    var g' := g.(notifys := notifys);
    NotifysShape(g, c, notifys);
    NotifysCoherent(g, c, notifys);
  }

  lemma NotifysShape(g: G, c: Ctx, notifys: seq<nat>)
    requires Shape(g, c)
    requires forall i :: 0 <= i < |notifys| ==> notifys[i] < Size(g) && g.kinds[notifys[i]].StateNode?
    ensures Shape(g.(notifys := notifys), c)
  {
    var g' := g.(notifys := notifys);
    forall b: nat | b < Size(g') ensures NodeOk(g', b) {
      assert NodeOk(g, b);
    }
    SameLinksKeeps(g, g', c);
  }

  lemma NotifysCoherent(g: G, c: Ctx, notifys: seq<nat>)
    requires Coherent(g, c) && Queued(g, c)
    ensures Coherent(g.(notifys := notifys), c) && Queued(g.(notifys := notifys), c)
  {
  }

  lemma LooseKeeps(g: G, s: nat, v: Value)
    requires Ok(g) && Lengths(g) && Live(g, s) && g.kinds[s].StateNode?
    ensures Ok(PushNotify(SetValue(g, s, v), s))
  {
    var g' := PushNotify(SetValue(g, s, v), s);
    SetValueKeeps(g, RestCtx(g), s, v);
    NotifysKeep(SetValue(g, s, v), Stale(RestCtx(g), s), g.notifys + [s]);
    assert Stale(RestCtx(g), s).stale == RestCtx(g').stale;
    assert Stale(RestCtx(g), s) == RestCtx(g');
  }

  /** The context while the first queued notification is carried out. */
  function NotifyCtx(g: G, s: nat): Ctx { Marking(RestCtx(g), s) }

  lemma NotifyBegins(g: G)
    requires Ok(g) && g.notifys != []
    ensures var s := g.notifys[0];
      Lengths(g) && s < Size(g) && g.kinds[s].StateNode?
      && Inv(PopNotify(g), NotifyCtx(g, s)) && MarkingBelow(NotifyCtx(g, s), s + 1)
  {
    var s := g.notifys[0];
    NotifysKeep(g, RestCtx(g), g.notifys[1..]);
    MarkingKeeps(PopNotify(g), RestCtx(g), s);
  }

  lemma NotifyEnds(g0: G, g: G)
    requires g0.notifys != [] && g.notifys == g0.notifys[1..]
    requires var s := g0.notifys[0]; Lengths(g) && s < Size(g) && Inv(g, Told(NotifyCtx(g0, s), s)) && AllDirty(g, s)
    ensures Ok(g)
  {
    var s := g0.notifys[0];
    var c := Told(NotifyCtx(g0, s), s);
    FreshAgain(g, c, s);
    assert g0.notifys == [s] + g.notifys;
    StaleMore(g, c.(stale := c.stale - {s}), RestCtx(g));
  }

  /** A dropped state has no readers, so nothing is to be announced. */
  lemma NotifyDead(g: G)
    requires Ok(g) && g.notifys != [] && Lengths(g) && g.notifys[0] < Size(g) && !g.alive[g.notifys[0]]
    ensures Ok(PopNotify(g)) && ToldAll(PopNotify(g), g.notifys[0])
    ensures Spread(PopNotify(g), PopNotify(g), g.notifys[0], DirtyLevel)
  {
    var s := g.notifys[0];
    NotifyBegins(g);
    assert NodeOk(g, s);
    ToldKeeps(PopNotify(g), NotifyCtx(g, s), s);
    NotifyEnds(g, PopNotify(g));
    hide Inv;
    OnlyBelowRefl(PopNotify(g), s, DirtyLevel);
  }

  // ----- announcing everything that is queued -----

  /** A queued notification is going to come down to node `a`; with `hard`, as a Dirty one all the way. */
  ghost predicate Awaits(g: G, a: nat, hard: bool)
    requires Lengths(g)
  {
    exists i :: 0 <= i < |g.notifys| && Downstream(g, g.notifys[i], a, hard)
  }

  ghost predicate NodeAnnounced(g: G, g': G, a: nat)
    requires Lengths(g) && Lengths(g') && a < Size(g) && a < Size(g')
  {
    && Rank(g.dirty[a]) <= Rank(g'.dirty[a])
    && (g'.dirty[a] != g.dirty[a] ==> Awaits(g, a, false) && (g'.dirty[a] == Dirty ==> Awaits(g, a, true)))
  }

  /** A binding at `m` is gone if that was queued; otherwise its mark went up only with an announcement. */
  ghost predicate BindingAnnounced(g: G, g': G, m: nat, k: nat)
    requires Lengths(g) && Lengths(g') && m < Size(g) && m < Size(g') && k in g.sinks[m]
  {
    if k !in g'.sinks[m] then Source(m, k) in g.unbinds
    else
      && BindingRaised(g.sinks[m][k], g'.sinks[m][k])
      && (g'.sinks[m][k].dirty != g.sinks[m][k].dirty ==>
            && Awaits(g, m, false)
            && (g'.sinks[m][k].dirty == Dirty ==> !Filters(g, m) && Awaits(g, m, true)))
  }

  /**
   * What announcing everything queued does: nothing that was computed or read changes, only bindings queued for it
   * go, and a mark goes up only downstream of a state whose notification was queued.
   */
  ghost predicate OnlyAnnounced(g: G, g': G) {
    && g'.kinds == g.kinds && g'.vals == g.vals && g'.alive == g.alive && g'.cache == g.cache
    && g'.sources == g.sources && g'.seen == g.seen && g'.ran == g.ran && g.pending <= g'.pending
    && Lengths(g) && Lengths(g')
    && (forall a :: 0 <= a < Size(g) ==> NodeAnnounced(g, g', a))
    && (forall m, k :: 0 <= m < Size(g) && k in g.sinks[m] ==> BindingAnnounced(g, g', m, k))
    && (forall m, k :: 0 <= m < Size(g) && k in g'.sinks[m] ==> k in g.sinks[m])
  }

  /** Every reader of the first `n` states in the queue has been told. */
  predicate ToldFirst(g0: G, g: G, n: nat)
    requires n <= |g0.notifys|
  {
    forall i :: 0 <= i < n ==> ToldAll(g, g0.notifys[i])
  }

  lemma UnboundIsAnnounced(g: G, g': G)
    requires Unbound(g, g') && Ok(g) && Ok(g')
    ensures OnlyAnnounced(g, g') && ToldFirst(g, g', 0)
  {
    forall m, k | 0 <= m < Size(g) && k in g.sinks[m] ensures BindingAnnounced(g, g', m, k) {
      assert Cut(g, g', m);
    }
    forall m, k | 0 <= m < Size(g) && k in g'.sinks[m] ensures k in g.sinks[m] {
      assert Cut(g, g', m);
    }
  }

  lemma AnnouncedIsThinner(g: G, g': G)
    requires OnlyAnnounced(g, g')
    ensures Thinner(g, g')
  {
    forall m, k | 0 <= m < Size(g) && k in g'.sinks[m]
      ensures k in g.sinks[m] && g'.sinks[m][k].sink == g.sinks[m][k].sink
    {
      assert BindingAnnounced(g, g', m, k);
    }
  }

  /** The next notification in the queue of `g0` is carried out. */
  lemma AnnounceOne(g0: G, g: G, g': G, i: nat)
    requires OnlyAnnounced(g0, g) && i < |g0.notifys| && g.notifys == g0.notifys[i..]
    requires Spread(PopNotify(g), g', g0.notifys[i], DirtyLevel)
    ensures OnlyAnnounced(g0, g')
  {
    var h := PopNotify(g);
    AnnouncedIsThinner(g0, g);
    assert Thinner(g0, h);
    forall a | 0 <= a < Size(g0) ensures NodeAnnounced(g0, g', a) {
      assert NodeAnnounced(g0, g, a) && NodeFrom(h, g', g0.notifys[i], DirtyLevel, a);
      BeforeBoth(g0, h, g0.notifys[i], a);
    }
    hide OnlyAnnounced;
    AnnounceBindings(g0, g, g', i);
  }

  lemma AnnounceBindings(g0: G, g: G, g': G, i: nat)
    requires OnlyAnnounced(g0, g) && i < |g0.notifys| && g.notifys == g0.notifys[i..]
    requires Spread(PopNotify(g), g', g0.notifys[i], DirtyLevel) && Thinner(g0, PopNotify(g))
    ensures forall m, k :: 0 <= m < Size(g0) && k in g0.sinks[m] ==> BindingAnnounced(g0, g', m, k)
    ensures forall m, k :: 0 <= m < Size(g0) && k in g'.sinks[m] ==> k in g0.sinks[m]
  {
    var h := PopNotify(g);
    forall m, k | 0 <= m < Size(g0) && k in g0.sinks[m] ensures BindingAnnounced(g0, g', m, k) {
      assert BindingAnnounced(g0, g, m, k) && TableRaised(h.sinks[m], g'.sinks[m]);
      if k in h.sinks[m] {
        assert BindingFrom(h, g', g0.notifys[i], DirtyLevel, m, k);
        BeforeBoth(g0, h, g0.notifys[i], m);
      }
    }
    forall m, k | 0 <= m < Size(g0) && k in g'.sinks[m] ensures k in g0.sinks[m] {
      assert TableRaised(h.sinks[m], g'.sinks[m]);
    }
  }

  /** Who has been told stays told. */
  lemma StaysTold(g: G, g': G, lo: nat, s: nat)
    requires Notified(g, g', lo) && ToldAll(g, s)
    ensures ToldAll(g', s)
  {
    assert TableRaised(g.sinks[s], g'.sinks[s]);
    forall k | k in g'.sinks[s] ensures BindingRaised(g.sinks[s][k], g'.sinks[s][k]) {
    }
  }

  lemma ToldNext(g0: G, g: G, g': G, i: nat)
    requires i < |g0.notifys| && ToldFirst(g0, g, i) && g.notifys != []
    requires Spread(PopNotify(g), g', g0.notifys[i], DirtyLevel) && ToldAll(g', g0.notifys[i])
    ensures ToldFirst(g0, g', i + 1)
  {
    forall j | 0 <= j < i ensures ToldAll(g', g0.notifys[j]) {
      assert ToldAll(g, g0.notifys[j]);
      StaysTold(PopNotify(g), g', g0.notifys[i], g0.notifys[j]);
    }
  }

  /**
   * `ready` is `g` with everything queued announced: every reader of the states in the queue has been told, and nothing
   * has changed if the queue was empty, except that queued unbinds were carried out.
   */
  ghost predicate Ready(g: G, ready: G) {
    && Ok(ready) && ready.notifys == [] && ready.unbinds == []
    && OnlyAnnounced(g, ready) && ToldFirst(g, ready, |g.notifys|)
    && (g.notifys == [] ==> Unbound(g, ready))
  }

  /** Node `a` is not clean, or a queued notification is going to come down to it. */
  ghost predicate Suspect(g: G, a: nat)
    requires Lengths(g)
  {
    a < Size(g) && (g.dirty[a] != Clean || Awaits(g, a, false))
  }

  /** Since `g`, while the log grew to `ran`, only functions of suspects were run. */
  ghost predicate OnlySuspectsRan(g: G, ran: seq<nat>)
    requires Lengths(g)
  {
    forall i :: |g.ran| <= i < |ran| ==> Suspect(g, ran[i])
  }

  predicate RanUnclean(g: G, ran: seq<nat>)
    requires Lengths(g)
  {
    forall i :: |g.ran| <= i < |ran| ==> ran[i] < Size(g) && g.dirty[ran[i]] != Clean
  }

  /** Nodes that are not clean once everything queued is announced were suspects before. */
  lemma SuspectsRan(g: G, ready: G, ran: seq<nat>)
    requires OnlyAnnounced(g, ready) && RanUnclean(ready, ran)
    ensures OnlySuspectsRan(g, ran)
  {
    forall i | |g.ran| <= i < |ran| ensures Suspect(g, ran[i]) {
      assert NodeAnnounced(g, ready, ran[i]);
    }
  }

  /** Neither node `n` nor, if it is a keep node, what it reads through is a suspect. */
  ghost predicate UpToDate(g: G, n: nat)
    requires Lengths(g)
    decreases n
  {
    && n < Size(g) && !Suspect(g, n)
    && (g.kinds[n].KeepNode? ==> g.kinds[n].signal < n && UpToDate(g, g.kinds[n].signal))
  }

  lemma {:induction false} StaysUpToDate(g: G, ready: G, n: nat)
    requires OnlyAnnounced(g, ready) && ready.notifys == [] && UpToDate(g, n)
    ensures UpToDate(ready, n)
    decreases n
  {
    assert NodeAnnounced(g, ready, n);
    if g.kinds[n].KeepNode? {
      StaysUpToDate(g, ready, g.kinds[n].signal);
    }
  }

  // ----- creating and dropping nodes -----

  lemma AddRests(g: G, kind: Kind, v: Value)
    requires Ok(g) && Lengths(g) && Addable(g, kind)
    ensures Ok(AddNode(g, kind, v))
  {
    AddKeeps(g, RestCtx(g), kind, v);
    assert RestCtx(AddNode(g, kind, v)) == RestCtx(g);
  }

  lemma DropRests(g: G, a: nat)
    requires Ok(g) && Lengths(g) && Unreferenced(g, a)
    ensures Ok(DropNode(g, a))
  {
    DropKeeps(g, RestCtx(g), a);
    assert RestCtx(DropNode(g, a)) == RestCtx(g);
  }

  /** An operation on the world is one the graph can carry out. */
  lemma PerformFacts(g: G, op: Op)
    requires Ok(g) && Valid(WorldOf(g)) && Allowed(WorldOf(g), op)
    ensures Lengths(g)
    ensures op.Create? ==> Addable(g, op.kind)
    ensures op.Drop? ==> Unreferenced(g, op.sink)
    ensures op.SetDedup? || op.Edit? ==> op.state in g.vals
  {
    var w := WorldOf(g);
    assert forall a: nat :: a <= Size(g) ==> Usable(w, a) == Readable(g, a);
    if op.Drop? {
      assert NodeOk(g, op.sink);
    }
  }

  // ----- deferred unbinds -----

  /** Only bindings that were queued for it went away; discards may have been scheduled. */
  predicate Unbound(g: G, g': G) {
    && g'.kinds == g.kinds && g'.vals == g.vals && g'.alive == g.alive && g'.dirty == g.dirty && g'.cache == g.cache
    && g'.sources == g.sources && g'.seen == g.seen && g'.ran == g.ran && g'.notifys == g.notifys
    && g'.pending == g.pending
    && |g'.unbinds| <= |g.unbinds| && (forall i :: 0 <= i < |g'.unbinds| ==> g'.unbinds[i] in g.unbinds)
    && |g'.sinks| == |g.sinks| && forall s :: 0 <= s < |g.sinks| ==> Cut(g, g', s)
  }

  /** The bindings at `s` are as before, without some of those that were queued. */
  predicate Cut(g: G, g': G, s: nat)
    requires s < |g.sinks| == |g'.sinks|
  {
    && (forall k :: k in g'.sinks[s] ==> k in g.sinks[s] && g'.sinks[s][k] == g.sinks[s][k])
    && (forall k :: k in g.sinks[s] && k !in g'.sinks[s] ==> Source(s, k) in g.unbinds)
  }

  lemma UnboundRefl(g: G)
    ensures Unbound(g, g)
  {
  }

  lemma UnboundTrans(g0: G, g1: G, g2: G)
    requires Unbound(g0, g1) && Unbound(g1, g2)
    ensures Unbound(g0, g2)
  {
    forall s | 0 <= s < |g0.sinks| ensures Cut(g0, g2, s) {
      assert Cut(g0, g1, s) && Cut(g1, g2, s);
    }
  }

  function UnbindFirst(g: G): G
    requires Lengths(g) && g.unbinds != [] && g.unbinds[0].node < Size(g)
  {
    Unbind(TakeUnbind(g), g.unbinds[0])
  }

  lemma UnbindFirstKeeps(g: G)
    requires Ok(g) && g.unbinds != []
    ensures Lengths(g) && g.unbinds[0].node < Size(g) && Ok(UnbindFirst(g))
  {
    ApplyUnbindStep(g, RestCtx(g));
    UnbindFirstSame(g);
  }

  lemma UnbindFirstSame(g: G)
    requires Lengths(g) && g.unbinds != [] && g.unbinds[0].node < Size(g)
    ensures Unbound(g, UnbindFirst(g)) && UnbindFirst(g).unbinds == g.unbinds[1..]
  {
    var g' := UnbindFirst(g);
    forall s | 0 <= s < |g.sinks| ensures Cut(g, g', s) {
      assert g.unbinds[0] in g.unbinds;
    }
  }

  // ----- reading from outside -----

  /** What an operation that only reads may do to the outside world: nothing but cache work. */
  predicate SameInputs(g: G, g': G) {
    && g'.kinds == g.kinds && g'.vals == g.vals && g'.alive == g.alive
  }

  lemma QuietIsIdle(g: G)
    requires Ok(g) && g.notifys == []
    ensures Inv(g, IDLE) && forall n: nat :: Above(IDLE, n)
  {
    assert RestCtx(g).stale == {};
    assert RestCtx(g) == IDLE;
  }

  lemma IdleIsQuiet(g: G)
    requires Inv(g, IDLE) && g.notifys == []
    ensures Ok(g)
  {
    assert RestCtx(g).stale == {};
    assert RestCtx(g) == IDLE;
  }

  /** After an update from outside the cache of a memo is the value of evaluation from scratch. */
  lemma UpdatedIsFresh(g0: G, g: G, n: nat)
    requires Inv(g, IDLE) && Updated(g0, g, n) && Live(g, n) && g.kinds[n].MemoNode?
    ensures Lengths(g) && g.cache[n] == Some(Eval(g0.kinds, g0.vals, n))
    ensures SameInputs(g0, g) && g.notifys == g0.notifys && g.unbinds == g0.unbinds
  {
    CleanIsFresh(g, IDLE, n);
  }

  /** The functions run since `g0`: each once, and only ones that evaluation of `n` from scratch needs. */
  ghost predicate RanFor(g0: G, g: G, n: nat)
    requires Program(g0.kinds) && Values(g0.kinds, g0.vals) && n < |g0.kinds|
  {
    && RanWithin(g0, g, Need(g0.kinds, g0.vals, n))
    && (forall i, j :: |g0.ran| <= i < j < |g.ran| ==> g.ran[i] != g.ran[j])
  }

  /** A read from outside brought `n` up to date. */
  ghost predicate Fetched(g0: G, g: G, n: nat) {
    UpdateFrame(g0, g, n) && ExactAt(g0, g, n) && g.dirty[n] == Clean
  }

  lemma FetchState(g: G, n: nat)
    requires Ok(g) && Lengths(g) && n < Size(g) && g.kinds[n].StateNode?
    ensures Fetched(g, g, n)
  {
    UpdateFrameRefl(g, RestCtx(g), n);
    assert NodeOk(g, n);
    StatesAreCertain(g, n);
    ExactRefl(g, n);
  }

  /** The bindings of a state are clean or Dirty, so `is_dirty` may always be asked. */
  lemma StatesAreCertain(g: G, s: nat)
    requires Ok(g) && Lengths(g) && s < Size(g) && g.kinds[s].StateNode?
    ensures forall k :: k in g.sinks[s] ==> g.sinks[s][k].dirty != MaybeDirty
  {
    forall k | k in g.sinks[s] ensures g.sinks[s][k].dirty != MaybeDirty {
      assert Marked(g, RestCtx(g), s, k);
      assert NodeOk(g, s);
    }
  }

  lemma ExactRefl(g: G, n: nat)
    requires Lengths(g) && n < Size(g) && g.kinds[n].StateNode?
    requires (forall k :: k in g.sinks[n] ==> g.sinks[n][k].dirty != MaybeDirty)
    ensures ExactAt(g, g, n)
  {
  }

  lemma FetchMemo(g0: G, g: G, n: nat)
    requires Updated(g0, g, n)
    ensures Fetched(g0, g, n)
  {
  }

  /** Reading through a keep node: first the keep node, then its signal, of which all is up to date. */
  lemma FetchKeep(g0: G, g1: G, g: G, n: nat, s: nat)
    requires Updated(g0, g1, n) && Fetched(g1, g, s) && s < n && g0.kinds[n].KeepNode? && g0.kinds[n].signal == s
    requires g0.sinks[n] == map[]
    ensures Fetched(g0, g, n)
  {
    hide Evolves, Need, Program, Values;
    EvolvesSame(g0, g1, n + 1, n + 1);
    EvolvesSame(g1, g, s + 1, s + 1);
    EvolvesAbove(g1, g, s, n);
    KeepMeaning(g0.kinds, g0.vals, n);
    EvolvesUp(g1, g, s, n);
    EvolvesTrans(g0, g1, g, n + 1, n + 1);
    RanWithinTrans(g0, g1, g, Need(g0.kinds, g0.vals, n));
  }

  lemma FetchedFacts(g0: G, g: G, n: nat)
    requires Fetched(g0, g, n)
    ensures SameInputs(g0, g) && RanFor(g0, g, n) && Lengths(g0) && RanUnclean(g0, g.ran)
  {
  }

  lemma KeepSignal(g: G, n: nat)
    requires Ok(g) && Lengths(g) && Live(g, n) && g.kinds[n].KeepNode?
    ensures var s := g.kinds[n].signal; s < n && Live(g, s) && !g.kinds[s].EffectNode? && g.sinks[n] == map[]
    ensures Eval(g.kinds, g.vals, n) == Eval(g.kinds, g.vals, g.kinds[n].signal)
  {
    KeepReadable(g, RestCtx(g), n);
    KeepMeaning(g.kinds, g.vals, n);
    assert NodeOk(g, n);
  }

  lemma EvolvesUp(g: G, g': G, s: nat, n: nat)
    requires Evolves(g, g', s + 1, s + 1) && s < n && s < Size(g) && ExactAt(g, g', s) && g'.dirty[s] == Clean
    ensures Evolves(g, g', n + 1, n + 1)
  {
    EvolvesWiden(g, g', s, n);
    DirtyAbove(g, g', s);
    forall m | n + 1 <= m < Size(g) ensures SameNode(g, g', m) {
    }
    forall m | 0 <= m < n + 1 && m < Size(g) && (g.dirty[m] == Clean || g'.dirty[m] != Clean) ensures Kept(g, g', m) {
      assert m > s ==> SameNode(g, g', m);
    }
    UpBindings(g, g', s, n);
  }

  lemma UpBindings(g: G, g': G, s: nat, n: nat)
    requires Evolves(g, g', s + 1, s + 1) && s < n && s < Size(g) && ExactAt(g, g', s) && g'.dirty[s] == Clean
    ensures forall t, k ::
      0 <= t < Size(g) && k in g.sinks[t] && Outer(g', n + 1, n + 1, g.sinks[t][k].sink) ==> BindingKept(g, g', t, k)
    ensures forall t, k ::
      0 <= t < Size(g) && t < n + 1 && k in g.sinks[t]
      && t < g.sinks[t][k].sink && Outer(g', n + 1, n + 1, g.sinks[t][k].sink) ==>
      Exact(g, g', t, k)
  {
    forall t, k | 0 <= t < Size(g) && k in g.sinks[t] && Outer(g', n + 1, n + 1, g.sinks[t][k].sink)
      ensures BindingKept(g, g', t, k) && (t < n + 1 && t < g.sinks[t][k].sink ==> Exact(g, g', t, k))
    {
      assert Outer(g', s + 1, s + 1, g.sinks[t][k].sink);
      assert t > s ==> SameNode(g, g', t);
    }
  }

  // ----- reactions -----

  /** The first pending reaction is done (or its effect is gone): it leaves the queue. */
  function PopPending(g: G): G
    requires g.pending != []
  {
    g.(pending := g.pending[1..])
  }

  lemma PopPendingShape(g: G, c: Ctx)
    requires Shape(g, c) && g.pending != []
    ensures Shape(PopPending(g), c)
  {
    var g' := PopPending(g);
    forall b: nat | b < Size(g') ensures NodeOk(g', b) {
      assert NodeOk(g, b);
    }
    SameLinksKeeps(g, g', c);
  }

  lemma PopPendingQueued(g: G, c: Ctx)
    requires Queued(g, c) && g.pending != []
    requires var e := g.pending[0]; e in c.running || e >= Size(g) || !g.alive[e]
    ensures Queued(PopPending(g), c) && g.pending[0] !in PopPending(g).pending
  {
    var g' := PopPending(g);
    assert g.pending == [g.pending[0]] + g'.pending;
  }

  lemma PopPendingKeeps(g: G, c: Ctx)
    requires Inv(g, c) && g.pending != []
    requires var e := g.pending[0]; e in c.running || e >= Size(g) || !g.alive[e]
    ensures Inv(PopPending(g), c) && g.pending[0] !in PopPending(g).pending
  {
    PopPendingShape(g, c);
    PopPendingQueued(g, c);
    assert Coherent(PopPending(g), c);
  }

  lemma ReactionFacts(g: G)
    requires Ok(g) && g.pending != []
    ensures Lengths(g) && g.pending[0] < Size(g) && g.kinds[g.pending[0]].EffectNode?
    ensures g.alive[g.pending[0]] ==> g.dirty[g.pending[0]] != Clean
  {
    assert g.pending[0] in g.pending;
  }

  /** The queue of reactions plays no part in evaluation. */
  lemma PendingIsOutside(g0: G, g: G, pending: seq<nat>, lo: nat, hi: nat)
    requires Evolves(g0, g, lo, hi)
    ensures Evolves(g0, g.(pending := pending), lo, hi)
  {
    var h := g.(pending := pending);
    forall m | hi <= m < Size(g0) ensures SameNode(g0, h, m) {
      assert SameNode(g0, g, m);
    }
    forall m | 0 <= m < lo && m < Size(g0) && (g0.dirty[m] == Clean || h.dirty[m] != Clean) ensures Kept(g0, h, m) {
      assert Kept(g0, g, m);
    }
    forall s, k | 0 <= s < Size(g0) && k in g0.sinks[s] && Outer(h, lo, hi, g0.sinks[s][k].sink)
      ensures BindingKept(g0, h, s, k)
    {
      assert BindingKept(g0, g, s, k);
    }
    forall s, k | 0 <= s < Size(g0) && s < lo && s + 1 < hi && k in g0.sinks[s] && s < g0.sinks[s][k].sink
                  && Outer(h, lo, hi, g0.sinks[s][k].sink)
      ensures Exact(g0, h, s, k)
    {
      assert Exact(g0, g, s, k);
    }
    forall m | 0 <= m < lo && m < Size(g0) && !g0.kinds[m].KeepNode? && g0.dirty[m] != Clean && h.dirty[m] == Clean
      ensures Decided(g0, h, m)
    {
      assert Decided(g0, g, m);
    }
  }

  lemma PendingIsOutsideBase(g: G, pending: seq<nat>)
    requires Base(g)
    ensures Base(g.(pending := pending))
  {
    var h := g.(pending := pending);
    forall a, i | 0 <= a < Size(h) && 0 <= i < |h.sources[a]| ensures Linked(h, h.sources[a][i], a) {
      assert Linked(g, g.sources[a][i], a);
    }
  }

  /** Effect `e`, first in the queue, was called: checked, and run only if a source had changed. */
  lemma CallEnds(g0: G, g: G, e: nat)
    requires Ok(g0) && g0.notifys == [] && g0.pending != [] && e == g0.pending[0] && g.pending == g0.pending
    requires Evaluated(g0, g, e) && Inv(g, Enter(IDLE, e)) && g.kinds[e].EffectNode?
    ensures Ok(PopPending(g)) && Called(g0, PopPending(g), e)
  {
    QuietIsIdle(g0);
    PopPendingKeeps(g, Enter(IDLE, e));
    CallLeaves(g0, g, e);
    IdleIsQuiet(PopPending(g));
    assert NodeOk(g0, e);
    CalledFacts(g0, g, e);
  }

  lemma CallLeaves(g0: G, g: G, e: nat)
    requires Evaluated(g0, g, e) && g.pending != [] && Inv(PopPending(g), Enter(IDLE, e)) && g.kinds[e].EffectNode?
    requires e !in PopPending(g).pending
    ensures Inv(PopPending(g), IDLE)
  {
    var h := PopPending(g);
    forall i | 0 <= i < |h.sources[e]| ensures Settled(h, e, i) {
      assert Settled(g, e, i);
    }
    ResolveLeaves(h, IDLE, e, false);
    assert NodeOk(h, e);
    ResolveNothing(h, e, false);
  }

  /** What calling effect `e` does: cache work, each needed function at most once, and `e` is clean. */
  ghost predicate Called(g0: G, g: G, e: nat) {
    && SameInputs(g0, g)
    && Base(g0) && Base(g)
    && g0.pending != [] && g.pending == g0.pending[1..] && g.notifys == g0.notifys && g.unbinds == g0.unbinds
    && e < Size(g) && g.dirty[e] == Clean
    && Evolves(g0, g, Size(g0), Size(g0))
    && RanFor(g0, g, e)
  }

  lemma CalledFacts(g0: G, g: G, e: nat)
    requires Evaluated(g0, g, e) && g0.pending != [] && g0.sinks[e] == map[] && g.pending == g0.pending
    ensures Called(g0, PopPending(g), e)
  {
    if e + 1 < Size(g0) {
      EvolvesUp(g0, g, e, Size(g0) - 1);
    }
    PendingIsOutside(g0, g, g.pending[1..], Size(g0), Size(g0));
    PendingIsOutsideBase(g, g.pending[1..]);
  }

  /** Calling effect `e` runs no other effect. */
  lemma CalledRunsOnly(g0: G, g: G, e: nat)
    requires Called(g0, g, e)
    ensures RanOnly(g0.kinds, e, g0.ran, g.ran)
  {
    hide Evolves, Base;
    CalledWithin(g0, g, e);
    forall i | |g0.ran| <= i < |g.ran| && IsEffect(g0.kinds, g.ran[i]) ensures g.ran[i] == e {
      CalledNeeds(g0, g, e, i);
    }
  }

  lemma CalledWithin(g0: G, g: G, e: nat)
    requires Called(g0, g, e)
    ensures g0.ran <= g.ran && forall i, j :: |g0.ran| <= i < j < |g.ran| ==> g.ran[i] != g.ran[j]
  {
    hide Evolves, Need;
  }

  lemma CalledNeeds(g0: G, g: G, e: nat, i: nat)
    requires Called(g0, g, e) && |g0.ran| <= i < |g.ran| && IsEffect(g0.kinds, g.ran[i])
    ensures g.ran[i] == e
  {
    hide Evolves;
    NeedsNoEffect(g0.kinds, g0.vals, e, g.ran[i]);
  }

  /** A dispatch only reorders the queue when it takes its batch. */
  lemma ReorderKeeps(g: G, c: Ctx, pending: seq<nat>)
    requires Inv(g, c) && NoDuplicates(pending)
    requires forall e :: e in pending <==> e in g.pending
    ensures Inv(g.(pending := pending), c)
  {
    var g' := g.(pending := pending);
    ReorderShape(g, c, pending);
    ReorderQueued(g, c, pending);
    assert Coherent(g', c);
  }

  lemma ReorderShape(g: G, c: Ctx, pending: seq<nat>)
    requires Shape(g, c)
    ensures Shape(g.(pending := pending), c)
  {
    var g' := g.(pending := pending);
    forall b: nat | b < Size(g') ensures NodeOk(g', b) {
      assert NodeOk(g, b);
    }
    SameLinksKeeps(g, g', c);
  }

  lemma ReorderQueued(g: G, c: Ctx, pending: seq<nat>)
    requires Queued(g, c) && NoDuplicates(pending)
    requires forall e :: e in pending <==> e in g.pending
    ensures Queued(g.(pending := pending), c)
  {
    forall i | 0 <= i < |pending| ensures pending[i] < Size(g) && g.kinds[pending[i]].EffectNode? {
      assert pending[i] in g.pending;
    }
  }

  lemma TakesBatch(g: G, phase: Option<int>)
    requires Ok(g)
    ensures AllEffects(g.kinds, g.pending) && NoDuplicates(g.pending)
    ensures Ok(g.(pending := Batch(g.kinds, g.pending, phase) + Rest(g.kinds, g.pending, phase)))
  {
    BatchSplits(g.kinds, g.pending, phase);
    ReorderKeeps(g, RestCtx(g), Batch(g.kinds, g.pending, phase) + Rest(g.kinds, g.pending, phase));
  }

  /** Node `m` is needed by evaluation from scratch of a live effect of the phase. */
  ghost predicate NeededInPhase(g: G, phase: Option<int>, m: nat)
    requires Base(g)
  {
    exists e: nat ::
      && e < Size(g) && g.kinds[e].EffectNode? && g.alive[e] && InPhase(g.kinds, e, phase)
      && m in Need(g.kinds, g.vals, e)
  }

  ghost predicate RanForPhase(g0: G, g: G, phase: Option<int>)
    requires Base(g0)
  {
    forall i :: |g0.ran| <= i < |g.ran| ==> NeededInPhase(g0, phase, g.ran[i])
  }

  /** Since `g0` some of the queued effects of the phase were called. */
  ghost predicate Dispatched(g0: G, g: G, phase: Option<int>) {
    && SameInputs(g0, g)
    && g.notifys == g0.notifys && g.unbinds == g0.unbinds
    && Base(g0)
    && Evolves(g0, g, Size(g0), Size(g0))
    && RanForPhase(g0, g, phase)
  }

  lemma DispatchedInputs(g0: G, g: G, phase: Option<int>)
    requires Dispatched(g0, g, phase)
    ensures SameInputs(g0, g) && Base(g0) && RanForPhase(g0, g, phase) && RanUnclean(g0, g.ran)
  {
  }

  lemma DispatchedRefl(g: G, pending: seq<nat>, phase: Option<int>)
    requires Ok(g)
    ensures Dispatched(g, g.(pending := pending), phase)
  {
    EvolvesRefl(g);
    PendingIsOutside(g, g, pending, Size(g), Size(g));
  }

  lemma EvolvesRefl(g: G)
    requires Lengths(g)
    ensures Evolves(g, g, Size(g), Size(g))
  {
  }

  lemma DispatchedCall(g0: G, g: G, g': G, e: nat, phase: Option<int>)
    requires Dispatched(g0, g, phase) && Called(g, g', e) && InBatch(g0, e, phase)
    ensures Dispatched(g0, g', phase)
  {
    EvolvesTrans(g0, g, g', Size(g0), Size(g0));
    forall i | |g0.ran| <= i < |g'.ran| ensures NeededInPhase(g0, phase, g'.ran[i]) {
      if i < |g.ran| {
        assert g'.ran[i] == g.ran[i];
      }
    }
  }

  /** `e` is a live effect of the phase. */
  predicate InBatch(g: G, e: nat, phase: Option<int>) {
    e < |g.kinds| == |g.alive| && g.kinds[e].EffectNode? && g.alive[e] && InPhase(g.kinds, e, phase)
  }

  /** The reaction of a dropped effect does nothing. */
  lemma DropsReaction(g0: G, g: G, phase: Option<int>)
    requires Ok(g) && Dispatched(g0, g, phase) && g.pending != [] && Lengths(g) && g.pending[0] < Size(g)
    requires !g.alive[g.pending[0]]
    ensures Ok(PopPending(g)) && Dispatched(g0, PopPending(g), phase)
  {
    PopPendingKeeps(g, RestCtx(g));
    assert RestCtx(PopPending(g)) == RestCtx(g);
    PendingIsOutside(g0, g, g.pending[1..], Size(g0), Size(g0));
  }

  /** A dispatch from `g0` is complete: every live effect of the phase is clean, and each function ran at most once. */
  lemma DispatchEnds(g0: G, g: G, phase: Option<int>)
    requires Ok(g0) && g0.notifys == [] && Ok(g) && Dispatched(g0, g, phase)
    requires AllEffects(g0.kinds, g0.pending) && NoDuplicates(g0.pending)
    requires g.pending == Rest(g0.kinds, g0.pending, phase)
    ensures Lengths(g0) && Lengths(g) && Size(g) == Size(g0)
    ensures forall e: nat :: InBatch(g0, e, phase) ==> g.dirty[e] == Clean
    ensures g0.ran <= g.ran
    ensures forall i, j :: |g0.ran| <= i < j < |g.ran| ==> g.ran[i] != g.ran[j]
  {
    BatchSplits(g0.kinds, g0.pending, phase);
    forall e: nat | InBatch(g0, e, phase) ensures g.dirty[e] == Clean {
      NothingPending(g, e);
    }
  }

  lemma EffectDecided(g0: G, g: G, phase: Option<int>, e: nat)
    requires Ok(g0) && g0.notifys == [] && Dispatched(g0, g, phase)
    requires InBatch(g0, e, phase) && g.dirty[e] == Clean
    ensures RunsWhenNeeded(g0, g.ran, e)
  {
    if g0.dirty[e] == Clean {
      CleanHasNoReason(g0, g.ran, e);
    } else {
      assert Decided(g0, g, e);
    }
  }

  /** A clean node has no reason to run, whatever else runs. */
  lemma CleanHasNoReason(g: G, ran: seq<nat>, n: nat)
    requires Ok(g) && g.notifys == [] && Lengths(g) && Live(g, n) && !g.kinds[n].StateNode? && g.dirty[n] == Clean
    ensures !HasReason(g, ran, n) && Unchanged(g, n)
  {
    QuietIsIdle(g);
    forall i | 0 <= i < |g.sources[n]| ensures Settled(g, n, i) && !Differs(g, ran, n, i) {
      CleanIsSettled(g, IDLE, n, i);
    }
    SettledIsFresh(g, IDLE, n, |g.sources[n]|);
  }

  /** Whatever ran during a read had a reason, and a node that was brought up to date without running had none. */
  lemma FetchedDecides(g0: G, g: G, n: nat, m: nat)
    requires Fetched(g0, g, n) && m < Size(g0) && !g0.kinds[m].KeepNode?
    ensures RanSince(g0.ran, g.ran, m) ==> HasReason(g0, g.ran, m)
    ensures m < Size(g) && g0.dirty[m] != Clean && g.dirty[m] == Clean ==> RunsWhenNeeded(g0, g.ran, m)
  {
    if RanSince(g0.ran, g.ran, m) {
      assert g0.dirty[m] != Clean && g.dirty[m] == Clean && m < n + 1;
      assert Decided(g0, g, m);
    }
    if m < n + 1 && g0.dirty[m] != Clean && g.dirty[m] == Clean {
      assert Decided(g0, g, m);
    }
    if n + 1 <= m {
      assert SameNode(g0, g, m);
    }
  }

  /** With nothing pending in a phase, every live effect of that phase is clean. */
  lemma NothingPending(g: G, e: nat)
    requires Ok(g) && Lengths(g) && e < Size(g) && g.kinds[e].EffectNode? && g.alive[e] && e !in g.pending
    ensures g.dirty[e] == Clean
  {
  }

  // ----- discards -----

  /** Number of bindings held: every dependency of a node and every deferred unbind counts one. */
  function Total(sources: seq<seq<Source>>): nat {
    if sources == [] then 0 else Total(sources[..|sources| - 1]) + |sources[|sources| - 1]|
  }

  lemma {:induction false} TotalUpdate(sources: seq<seq<Source>>, sources': seq<seq<Source>>, n: nat)
    requires |sources'| == |sources| && n < |sources|
    requires forall a :: 0 <= a < |sources| && a != n ==> sources'[a] == sources[a]
    ensures Total(sources') + |sources[n]| == Total(sources) + |sources'[n]|
  {
    var last := |sources| - 1;
    if n == last {
      assert sources'[..last] == sources[..last];
    } else {
      TotalUpdate(sources[..last], sources'[..last], n);
    }
  }

  /** The scheduled discard of `m` finds nobody listening: caches and dependencies go. */
  lemma DiscardBegins(g: G)
    requires Ok(g) && g.discards != []
    ensures Lengths(g) && g.discards[|g.discards| - 1] < Size(g)
    ensures var m := g.discards[|g.discards| - 1];
      && Discardable(g, m)
      && (g.sinks[m] != map[] ==> Ok(PopDiscard(g)))
      && (g.sinks[m] == map[] ==> Inv(ClearCache(PopDiscard(g), m), Enter(RestCtx(g), m)))
  {
    var m := g.discards[|g.discards| - 1];
    PopDiscardKeeps(g, RestCtx(g));
    if g.sinks[m] != map[] {
      PopDiscardHeard(g, RestCtx(g));
      assert RestCtx(PopDiscard(g)) == RestCtx(g);
    } else {
      ClearCacheKeeps(PopDiscard(g), Enter(RestCtx(g), m), m);
    }
  }

  lemma DiscardEnds(g0: G, g1: G, g: G, m: nat)
    requires Lengths(g0) && m < Size(g0) && Discardable(g0, m) && g0.sinks[m] == map[] && g0.discards != []
    requires m == g0.discards[|g0.discards| - 1]
    requires g1 == ClearCache(PopDiscard(g0), m)
    requires Drained(g1, g, Enter(RestCtx(g0), m), m, 0) && |g.sources[m]| == 0
    ensures Ok(MakeDirty(g, m))
    ensures Total(g.sources) + |g0.sources[m]| == Total(g0.sources)
    ensures |g0.sources[m]| == 0 ==> |g.discards| < |g0.discards|
    ensures SameInputs(g0, g) && g.notifys == g0.notifys && g.unbinds == g0.unbinds
  {
    hide AllDecided, Exact, RanOnce;
    assert RestCtx(MakeDirty(g, m)) == RestCtx(g0);
    ClearedKeeps(g, RestCtx(g0), m);
    TotalUpdate(g0.sources, g.sources, m);
  }

  /** `to` is a live sink of `from` that keeps it from being discarded. */
  predicate Listens(g: G, from: nat, to: nat)
    requires Lengths(g)
  {
    && from < to < Size(g) && g.alive[to]
    && exists k :: k in g.sinks[from] && g.sinks[from][k].sink == to
  }

  /** Effects, keep nodes and pinned memos are never discarded. */
  predicate Root(g: G, n: nat)
    requires Lengths(g) && n < Size(g)
  {
    g.alive[n] && (g.kinds[n].EffectNode? || g.kinds[n].KeepNode? || (g.kinds[n].MemoNode? && g.kinds[n].pinned))
  }

  /** A chain of live listeners leads from `n` to a root. */
  ghost predicate ReachesRoot(g: G, n: nat)
    requires Lengths(g) && n < Size(g)
    decreases Size(g) - n
  {
    Root(g, n) || exists a: nat :: Listens(g, n, a) && ReachesRoot(g, a)
  }

  /** Once no discard and no unbind is queued, whatever still holds something is listened to by a root. */
  lemma {:induction false} DiscardsAreComplete(g: G, n: nat)
    requires Ok(g) && Lengths(g) && n < Size(g) && g.discards == [] && g.unbinds == []
    requires g.kinds[n].MemoNode? && g.alive[n] && Holds(g, n)
    ensures ReachesRoot(g, n)
    decreases Size(g) - n
  {
    if !Root(g, n) {
      assert !Unheard(g, n);
      var k :| k in g.sinks[n];
      var a := g.sinks[n][k].sink;
      assert Owned(g, RestCtx(g), n, k);
      assert Listens(g, n, a);
      assert NodeOk(g, a);
      if !Root(g, a) {
        DiscardsAreComplete(g, a);
      }
      assert ReachesRoot(g, a);
    }
  }

  /** The same for all memos. */
  lemma AllDiscarded(g: G)
    requires Ok(g) && g.discards == [] && g.unbinds == []
    ensures Lengths(g)
    ensures forall n: nat :: n < Size(g) && g.kinds[n].MemoNode? && g.alive[n] && Holds(g, n) ==> ReachesRoot(g, n)
  {
    hide ReachesRoot, Holds;
    forall n: nat | n < Size(g) && g.kinds[n].MemoNode? && g.alive[n] && Holds(g, n) ensures ReachesRoot(g, n) {
      DiscardsAreComplete(g, n);
    }
  }
}
